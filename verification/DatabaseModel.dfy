/** One reconciliation pass over a Database, as a decision list over the persisted status: the stages
    of a Storage, with the creation of the tenant in the CMS in place of the initialization Job. */
module DatabaseModel {
  import opened Wrappers
  import opened Conditions
  import opened Cms
  import opened Scaling
  import opened Stages

  /** The three resource sections count by their presence. */
  datatype DatabaseSpec = DatabaseSpec(
    domain: string, path: string, dedicated: bool, shared: bool, serverless: bool,
    nodes: int, nodeSets: Option<seq<NodeSetEntry>>, pause: bool, operatorSync: bool)

  /** One CreateDatabase operation the CMS has taken. */
  datatype TenantOperation = TenantOperation(path: string, result: OpResult)

  datatype World = World(
    name: string, generation: nat, spec: DatabaseSpec, skipInit: bool, status: Status, cms: seq<TenantOperation>)
  {
    function Path(): string { DatabasePath(name, spec) }
  }

  function LegacyPath(name: string, spec: DatabaseSpec): string { "/" + spec.domain + "/" + name }

  function DatabasePath(name: string, spec: DatabaseSpec): string {
    if spec.path != "" then spec.path else LegacyPath(name, spec)
  }

  /** Databases of different names or domains get different paths of their own. */
  lemma LegacyPathsDiffer(name: string, spec: DatabaseSpec, name': string, spec': DatabaseSpec)
    requires '/' !in spec.domain && '/' !in spec'.domain
    ensures LegacyPath(name, spec) == LegacyPath(name', spec') <==> name == name' && spec.domain == spec'.domain
  {
    var p, p' := LegacyPath(name, spec), LegacyPath(name', spec');
    if p == p' {
      assert p[|spec.domain| + 1] == '/' && p'[|spec'.domain| + 1] == '/';
      assert forall i :: 0 <= i < |spec.domain| ==> p[i + 1] == spec.domain[i];
      assert forall i :: 0 <= i < |spec'.domain| ==> p'[i + 1] == spec'.domain[i];
      assert |spec.domain| == |spec'.domain|;
      assert spec.domain == p[1..|spec.domain| + 1] && spec'.domain == p'[1..|spec.domain| + 1];
      assert name == p[|spec.domain| + 2..] && name' == p'[|spec.domain| + 2..];
    }
  }

  // ----- The webhooks an edit goes through -----

  const DEFAULT_DOMAIN := "Root"

  /** Nothing is defaulted while the operator is switched off. */
  function Default(name: string, spec: DatabaseSpec): DatabaseSpec {
    if spec.operatorSync then Defaulted(name, spec) else spec
  }

  function Defaulted(name: string, spec: DatabaseSpec): DatabaseSpec {
    var s := if spec.domain == "" then spec.(domain := DEFAULT_DOMAIN) else spec;
    if s.path == "" then s.(path := LegacyPath(name, s)) else s
  }

  /** Defaulting settles the path, unless the operator is switched off: the one asked for, or the one made of
      the domain and the name. Nothing else is touched. */
  lemma DefaultSettlesThePath(name: string, spec: DatabaseSpec)
    ensures !spec.operatorSync ==> Default(name, spec) == spec
    ensures spec.operatorSync ==>
            var s := Default(name, spec);
            && s.domain == (if spec.domain == "" then "Root" else spec.domain)
            && s.path == (if spec.path != "" then spec.path else "/" + s.domain + "/" + name)
            && DatabasePath(name, s) == s.path && s == spec.(domain := s.domain, path := s.path)
  {
  }

  predicate ValidateUpdate(name: string, before: DatabaseSpec, after: DatabaseSpec) {
    after.domain == before.domain && DatabasePath(name, after) == DatabasePath(name, before)
  }

  // ----- One pass -----

  datatype PassEnv = PassEnv(
    storage: Option<bool>,      // whether the Storage could be read, and is initialized
    resourcesOk: bool, sharedReady: bool, credentials: bool,
    submission: Submission, poll: Poll,
    statefulSet: Lookup, nodeSets: map<NodeSetRef, NodeSetView>, statusWritten: bool)

  datatype Action = SyncResources | CreateTenant(path: string) | WriteStatus(status: Status)

  datatype Outcome = Outcome(status: Status, cms: seq<TenantOperation>, actions: seq<Action>)

  /** What a pass decides; a put may set a second condition after the first. */
  datatype Plan = Plan(cms: seq<TenantOperation>, actions: seq<Action>, put: Option<Put>, also: Option<Condition>)

  function Persisted(pause: bool, generation: nat, cs: seq<Condition>, put: Put, also: Option<Condition>): Status {
    if also.None? then Updated(DATABASE_STAGES, pause, generation, cs, put)
    else Updated(DATABASE_STAGES, pause, generation, SetStatusCondition(cs, put.condition), Put(put.state, also.value))
  }

  function NewStatus(w: World, p: Plan): Status
    requires p.put.Some?
  {
    Persisted(w.spec.pause, w.generation, w.status.conditions, p.put.value, p.also)
  }

  function Commit(w: World, env: PassEnv, p: Plan): Outcome {
    if p.put.Some? && env.statusWritten then
      var status := NewStatus(w, p);
      Outcome(status, p.cms, p.actions + [WriteStatus(status)])
    else Outcome(w.status, p.cms, p.actions)
  }

  function Pass(w: World, env: PassEnv): Outcome { Commit(w, env, Decide(w, env)) }

  function Hold(w: World, actions: seq<Action>): Plan { Plan(w.cms, actions, None, None) }

  function Report(w: World, p: Plan, state: ClusterState, kind: ConditionType, status: ConditionStatus,
                  reason: Reason, message: Message): Plan {
    p.(put := Some(Put(state, Condition(kind, status, reason, w.generation, message))))
  }

  function Decide(w: World, env: PassEnv): Plan {
    var cs, state := w.status.conditions, w.status.state;
    var synced := Hold(w, [SyncResources]);
    if cs == [] then
      Report(w, Hold(w, []), state, if w.spec.pause then DatabasePaused else DatabaseReady, Unknown, InProgress, Note)
    else if state.Pending? then
      Report(w, Hold(w, []), Preparing, DatabasePrepared, Unknown, InProgress, Note)
    else if env.storage.None? then Hold(w, [])
    else if !env.storage.value then Report(w, Hold(w, []), state, DatabasePrepared, False, InProgress, Note)
    else if !w.spec.operatorSync then Hold(w, [])
    else if !env.resourcesOk then Report(w, synced, state, DatabasePrepared, False, InProgress, Note)
    else if !Is(cs, DatabasePrepared, True) then Report(w, synced, state, DatabasePrepared, True, Completed, Note)
    else if !Is(cs, DatabaseInitialized, True) then DecideTenant(w, env)
    else if state.Initializing? then Report(w, synced, Provisioning, DatabaseProvisioned, Unknown, InProgress, Note)
    else if w.spec.serverless && w.spec.nodeSets.None? then DecidePause(w)
    else if Scaled(w.spec, env).Unread? then synced
    else if Scaled(w.spec, env).Lagging? then Report(w, synced, state, DatabaseProvisioned, False, InProgress, Note)
    else if !Is(cs, DatabaseProvisioned, True) then
      Report(w, synced, state, DatabaseProvisioned, True, Completed, Note)
    else DecidePause(w)
  }

  function Scaled(spec: DatabaseSpec, env: PassEnv): Scale {
    ScaleOf(spec.nodes, spec.nodeSets, env.statefulSet, env.nodeSets)
  }

  /** A serverless Database waits for the Database it shares; the other kinds are checked first. */
  predicate TenantDescribed(spec: DatabaseSpec, env: PassEnv) {
    spec.dedicated || spec.shared || (spec.serverless && env.sharedReady)
  }

  function CompleteTenant(w: World, p: Plan): Plan {
    Report(w, p, w.status.state, DatabaseInitialized, True, Completed, Note)
      .(also := Some(Condition(CreateDatabaseOperation, True, Completed, w.generation, Note)))
  }

  function DecideTenant(w: World, env: PassEnv): Plan {
    var synced := Hold(w, [SyncResources]);
    if w.status.state.Preparing? then
      Report(w, synced, Initializing, DatabaseInitialized, False, InProgress, Note)
    else if w.skipInit || Is(w.status.conditions, OLD_DATABASE_INITIALIZED, True) then CompleteTenant(w, synced)
    else if !TenantDescribed(w.spec, env) || !env.credentials then synced
    else if Is(w.status.conditions, CreateDatabaseOperation, Unknown) then DecidePoll(w, env)
    else DecideSubmit(w, env)
  }

  /** The result in the log of the operation a condition names. */
  function Logged(cms: seq<TenantOperation>, id: Message): Option<OpResult> {
    if id.OperationId? && id.id < |cms| then Some(cms[id.id].result) else None
  }

  function DecidePoll(w: World, env: PassEnv): Plan
    requires Is(w.status.conditions, CreateDatabaseOperation, Unknown)
  {
    var synced, state := Hold(w, [SyncResources]), w.status.state;
    var id := Find(w.status.conditions, CreateDatabaseOperation).value.message;
    if id.Empty? then Report(w, synced, state, CreateDatabaseOperation, False, Failed, Note)
    else if env.poll.PollFailed? then synced
    else
      var check := CheckOperationStatus(PollReply(Logged(w.cms, id), id, env.poll));
      // Unlike a failed ReplaceConfig, a failed creation is persisted.
      if check.failed then Report(w, synced, state, CreateDatabaseOperation, False, Completed, Note)
      else if !check.finished then Report(w, synced, state, CreateDatabaseOperation, Unknown, InProgress, check.id)
      else CompleteTenant(w, synced)
  }

  function DecideSubmit(w: World, env: PassEnv): Plan {
    var asked := [SyncResources, CreateTenant(w.Path())];
    if env.submission.Refused? then Hold(w, asked)
    else
      var taken := Plan(w.cms + [TenantOperation(w.Path(), env.submission.taken)], asked, None, None);
      var reply := ReplyTo(env.submission, |w.cms|);
      if reply.None? then taken else AfterResponse(w, taken, reply.value)
  }

  function AfterResponse(w: World, p: Plan, check: Check): Plan {
    if check.failed then p
    else if !check.finished then
      Report(w, p, w.status.state, CreateDatabaseOperation, Unknown, InProgress, check.id)
    else CompleteTenant(w, p)
  }

  function DecidePause(w: World): Plan {
    Hold(w, [SyncResources]).(put := PauseMove(DATABASE_STAGES, w.spec.pause, w.generation, w.status))
  }

  // ----- Everything that can happen to a Database -----

  datatype Event =
    | Reconcile(env: PassEnv)
    | EditSpec(spec: DatabaseSpec)
    | Annotate(skipInit: bool)
    | OperationEnds(id: nat, code: StatusCode)

  function After(w: World, o: Outcome): World { w.(status := o.status, cms := o.cms) }

  function Step(w: World, e: Event): World {
    match e
    case Reconcile(env) => After(w, Pass(w, env))
    case EditSpec(spec) =>
      var s := Default(w.name, spec);
      if s == w.spec || !ValidateUpdate(w.name, w.spec, s) then w else w.(spec := s, generation := w.generation + 1)
    case Annotate(skipInit) => w.(skipInit := skipInit)
    case OperationEnds(id, code) =>
      if id < |w.cms| && w.cms[id].result.Running?
      then w.(cms := w.cms[id := w.cms[id].(result := Finished(code))]) else w
  }

  function Run(w: World, events: seq<Event>): World
    decreases |events|
  {
    if events == [] then w else Step(Run(w, events[..|events| - 1]), events[|events| - 1])
  }

  /** A Database the current operator has not worked on yet: newly created, or left by an older release
      with that release's conditions. */
  predicate Untouched(w: World) {
    && !Is(w.status.conditions, DatabaseInitialized, True)
    && Find(w.status.conditions, CreateDatabaseOperation).None? && w.cms == []
  }
}
