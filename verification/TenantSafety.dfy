/** What every run of the Database reconciler keeps about the tenant it creates in the CMS, and how
    a failed creation is retried. */
module TenantSafety {
  import opened Wrappers
  import opened Conditions
  import opened Cms
  import opened Stages
  import opened DatabaseModel

  predicate Initialized(w: World) { Is(w.status.conditions, DatabaseInitialized, True) }

  /** The CMS has reported success, or that it already existed, for a tenant at exactly that path. */
  ghost predicate Created(w: World, path: string) {
    exists i :: 0 <= i < |w.cms| && w.cms[i].path == path && Accepted(w.cms[i].result)
  }

  /** Every operation in the log is on the Database's own path, and an operation recorded as running is in the log. */
  ghost predicate LogFaithful(w: World) {
    && (forall i :: 0 <= i < |w.cms| ==> w.cms[i].path == w.Path())
    && (Is(w.status.conditions, CreateDatabaseOperation, Unknown) ==>
          var id := Find(w.status.conditions, CreateDatabaseOperation).value.message;
          id.Empty? || (id.OperationId? && id.id < |w.cms|))
  }

  ghost predicate Inv(w: World) {
    && (Initialized(w) ==> Is(w.status.conditions, CreateDatabaseOperation, True))
    && LogFaithful(w)
  }

  // ----- The guards of a pass -----

  lemma NewStatusFinds(w: World, p: Plan, kind: ConditionType)
    requires p.put.Some? && !kind.DatabaseReady? && !kind.DatabasePaused?
    ensures Find(NewStatus(w, p).conditions, kind)
         == if p.also.Some? && p.also.value.kind == kind then p.also
            else if p.put.value.condition.kind == kind then Some(p.put.value.condition)
            else Find(w.status.conditions, kind)
  {
    var first, put := SetStatusCondition(w.status.conditions, p.put.value.condition), p.put.value;
    if p.also.Some? {
      UpdatedFinds(DATABASE_STAGES, w.spec.pause, w.generation, first, Put(put.state, p.also.value), kind);
    } else {
      UpdatedFinds(DATABASE_STAGES, w.spec.pause, w.generation, w.status.conditions, put, kind);
    }
  }

  /** The stage a pass gets to that deals with the tenant. */
  predicate ReachesTenant(w: World, env: PassEnv) {
    && w.status.conditions != [] && !w.status.state.Pending? && env.storage == Some(true)
    && w.spec.operatorSync && env.resourcesOk && Is(w.status.conditions, DatabasePrepared, True)
    && !Initialized(w)
  }

  predicate TouchesTenant(kind: ConditionType) {
    kind.DatabaseInitialized? || kind.CreateDatabaseOperation? || kind.TenantInitialized?
  }

  lemma OtherStagesLeaveTheTenant(w: World, env: PassEnv)
    requires !ReachesTenant(w, env)
    ensures var p := Decide(w, env);
            && p.cms == w.cms && p.also.None?
            && (p.put.Some? ==> !TouchesTenant(p.put.value.condition.kind))
            && (forall a :: a in p.actions ==> a.SyncResources?)
  {
    var cs := w.status.conditions;
    if cs == [] || w.status.state.Pending? || env.storage != Some(true) || !w.spec.operatorSync {
    } else if !env.resourcesOk || !Is(cs, DatabasePrepared, True) {
    } else if w.status.state.Initializing? {
    } else { PauseLeavesTheTenant(w); }
  }

  lemma PauseLeavesTheTenant(w: World)
    ensures var p := DecidePause(w);
            && p.cms == w.cms && p.also.None? && p.actions == [SyncResources]
            && (p.put.Some? ==> !TouchesTenant(p.put.value.condition.kind))
  {
  }

  predicate Skips(w: World) { w.skipInit || Is(w.status.conditions, OLD_DATABASE_INITIALIZED, True) }

  /** The log grows by at most one operation, on the Database's path, and only when none is recorded as running. */
  ghost predicate LogGuarded(w: World, p: Plan) {
    || (p.cms == w.cms && p.actions == [SyncResources])
    || (&& !Is(w.status.conditions, CreateDatabaseOperation, Unknown)
        && p.actions == [SyncResources, CreateTenant(w.Path())]
        && (p.cms == w.cms || exists r :: p.cms == w.cms + [TenantOperation(w.Path(), r)]))
  }

  /** What the tenant stage may put: completion with its grounds, a recorded operation, or a setback. */
  ghost predicate PutGuarded(w: World, p: Plan) {
    p.put.Some? ==>
      var c := p.put.value.condition;
      || (p.also == Some(Condition(CreateDatabaseOperation, True, Completed, w.generation, Note))
          && c.kind.DatabaseInitialized? && c.status.True?
          && (Skips(w) || exists i :: 0 <= i < |p.cms| && Accepted(p.cms[i].result)))
      || (p.also.None? && c.kind.DatabaseInitialized? && c.status.False?)
      || (p.also.None? && c.kind.CreateDatabaseOperation? && c.status.False?)
      || (p.also.None? && c.kind.CreateDatabaseOperation? && c.status.Unknown?
          && (c.message.Empty? || (c.message.OperationId? && c.message.id < |p.cms|)))
  }

  lemma SubmitIsGuarded(w: World, env: PassEnv)
    requires !Is(w.status.conditions, CreateDatabaseOperation, Unknown)
    ensures LogGuarded(w, DecideSubmit(w, env)) && PutGuarded(w, DecideSubmit(w, env))
  {
    var p := DecideSubmit(w, env);
    if !env.submission.Refused? {
      assert p.cms[|w.cms|].result == env.submission.taken;
    }
  }

  lemma PollIsGuarded(w: World, env: PassEnv)
    requires LogFaithful(w) && Is(w.status.conditions, CreateDatabaseOperation, Unknown)
    ensures LogGuarded(w, DecidePoll(w, env)) && PutGuarded(w, DecidePoll(w, env))
  {
  }

  lemma TenantIsGuarded(w: World, env: PassEnv)
    requires LogFaithful(w)
    ensures LogGuarded(w, DecideTenant(w, env)) && PutGuarded(w, DecideTenant(w, env))
  {
    if w.status.state.Preparing? || Skips(w) || !TenantDescribed(w.spec, env) || !env.credentials {
    } else if Is(w.status.conditions, CreateDatabaseOperation, Unknown) { PollIsGuarded(w, env);
    } else { SubmitIsGuarded(w, env); }
  }

  // ----- One step -----

  ghost predicate Grounded(w: World, after: World) { Skips(w) || Created(after, w.Path()) }

  lemma PassOnTheTenant(w: World, env: PassEnv)
    requires Inv(w)
    ensures var w' := After(w, Pass(w, env));
            && Inv(w')
            && (Initialized(w') && !Initialized(w) ==> Grounded(w, w'))
            && (Initialized(w) ==> Initialized(w'))
            && Find(w'.status.conditions, TenantInitialized) == Find(w.status.conditions, TenantInitialized)
  {
    var p := Decide(w, env);
    if ReachesTenant(w, env) {
      assert p == DecideTenant(w, env);
      TenantIsGuarded(w, env);
      CommitOnTheTenant(w, env, p);
    } else {
      OtherStagesLeaveTheTenant(w, env);
      if p.put.Some? {
        NewStatusFinds(w, p, DatabaseInitialized);
        NewStatusFinds(w, p, CreateDatabaseOperation);
        NewStatusFinds(w, p, TenantInitialized);
      }
    }
  }

  lemma CommitOnTheTenant(w: World, env: PassEnv, p: Plan)
    requires Inv(w) && !Initialized(w) && LogGuarded(w, p) && PutGuarded(w, p)
    ensures var w' := After(w, Commit(w, env, p));
            && Inv(w')
            && (Initialized(w') ==> Grounded(w, w'))
            && Find(w'.status.conditions, TenantInitialized) == Find(w.status.conditions, TenantInitialized)
  {
    assert forall i :: 0 <= i < |p.cms| ==> p.cms[i].path == w.Path();
    if p.put.Some? {
      NewStatusFinds(w, p, DatabaseInitialized);
      NewStatusFinds(w, p, CreateDatabaseOperation);
      NewStatusFinds(w, p, TenantInitialized);
    }
  }

  lemma StepOnTheTenant(w: World, e: Event)
    requires Inv(w)
    ensures var w' := Step(w, e);
            && Inv(w') && w'.Path() == w.Path()
            && (Initialized(w') && !Initialized(w) ==> Grounded(w, w'))
            && (Initialized(w) ==> Initialized(w'))
            && Find(w'.status.conditions, TenantInitialized) == Find(w.status.conditions, TenantInitialized)
            && (Created(w, w.Path()) ==> Created(w', w.Path()))
  {
    if e.Reconcile? { PassOnTheTenant(w, e.env); }
    if Created(w, w.Path()) { CreatedStays(w, e); }
  }

  lemma CreatedStays(w: World, e: Event)
    requires Inv(w) && Created(w, w.Path())
    ensures Created(Step(w, e), w.Path())
  {
    var i :| 0 <= i < |w.cms| && w.cms[i].path == w.Path() && Accepted(w.cms[i].result);
    if e.Reconcile? {
      if ReachesTenant(w, e.env) { TenantIsGuarded(w, e.env); } else { OtherStagesLeaveTheTenant(w, e.env); }
    }
    assert Step(w, e).cms[i] == w.cms[i];
  }

  // ----- Whole runs -----

  lemma {:induction false} InvHolds(w: World, events: seq<Event>)
    requires Untouched(w)
    ensures var v := Run(w, events);
            && Inv(v) && v.Path() == w.Path()
            && Find(v.status.conditions, TenantInitialized) == Find(w.status.conditions, TenantInitialized)
    decreases |events|
  {
    if events != [] {
      InvHolds(w, events[..|events| - 1]);
      StepOnTheTenant(Run(w, events[..|events| - 1]), events[|events| - 1]);
    }
  }

  /** The path and the domain of a Database never change, whatever edits its webhooks accept. */
  lemma {:induction false} PathIsConstant(w: World, events: seq<Event>)
    ensures Run(w, events).Path() == w.Path() && Run(w, events).spec.domain == w.spec.domain
    decreases |events|
  {
    if events != [] {
      PathIsConstant(w, events[..|events| - 1]);
      StepKeepsThePath(Run(w, events[..|events| - 1]), events[|events| - 1]);
    }
  }

  lemma StepKeepsThePath(w: World, e: Event)
    ensures Step(w, e).Path() == w.Path() && Step(w, e).name == w.name && Step(w, e).spec.domain == w.spec.domain
  {
  }

  /** The pass that turns the Initialized condition true, and what stands behind it: the skip annotation
      that very pass saw, the condition of an older release, or a tenant the CMS has confirmed by then. */
  ghost predicate TurnsInitialized(w: World, events: seq<Event>, k: nat)
    requires k < |events|
  {
    && events[k].Reconcile? && !Initialized(Run(w, events[..k])) && Initialized(Run(w, events[..k + 1]))
    && (|| Run(w, events[..k]).skipInit
        || Is(w.status.conditions, OLD_DATABASE_INITIALIZED, True)
        || Created(Run(w, events[..k + 1]), w.Path()))
  }

  lemma OnlyPassesInitialize(w: World, e: Event)
    requires !Initialized(w) && !e.Reconcile?
    ensures !Initialized(Step(w, e))
  {
  }

  lemma NewlyInitialized(w: World, e: Event)
    requires Inv(w) && !Initialized(w)
    ensures Initialized(Step(w, e)) ==> e.Reconcile? && (Skips(w) || Created(Step(w, e), w.Path()))
  {
    StepOnTheTenant(w, e);
    if !e.Reconcile? { OnlyPassesInitialize(w, e); }
  }

  lemma LastPassTurns(w: World, events: seq<Event>)
    requires Untouched(w) && events != []
    ensures !Initialized(Run(w, events[..|events| - 1])) && Initialized(Run(w, events)) ==>
              TurnsInitialized(w, events, |events| - 1)
  {
    var n := |events| - 1;
    InvHolds(w, events[..n]);
    if !Initialized(Run(w, events[..n])) {
      NewlyInitialized(Run(w, events[..n]), events[n]);
    }
    assert events[..n + 1] == events;
  }

  lemma TurningStays(w: World, events: seq<Event>, n: nat, k: nat)
    requires k < n <= |events|
    ensures TurnsInitialized(w, events[..n], k) ==> TurnsInitialized(w, events, k)
  {
    assert events[..n][..k] == events[..k] && events[..n][..k + 1] == events[..k + 1];
  }

  /** Tenant safety: a Database reported initialized has a completed CreateDatabaseOperation, and the
      very pass that turned it so saw the skip annotation, or the Database started with the condition of
      an older release, or the CMS had confirmed a tenant at exactly its path. */
  lemma {:induction false} InitializedOnlyWithTenant(w: World, events: seq<Event>)
    requires Untouched(w)
    ensures Initialized(Run(w, events)) ==>
              && Is(Run(w, events).status.conditions, CreateDatabaseOperation, True)
              && exists k :: 0 <= k < |events| && TurnsInitialized(w, events, k)
    decreases |events|
  {
    InvHolds(w, events);
    if events != [] && Initialized(Run(w, events)) {
      var n := |events| - 1;
      if Initialized(Run(w, events[..n])) {
        InitializedOnlyWithTenant(w, events[..n]);
        var k :| 0 <= k < n && TurnsInitialized(w, events[..n], k);
        TurningStays(w, events, n, k);
      } else {
        LastPassTurns(w, events);
      }
    }
  }

  /** A tenant once confirmed stays confirmed. */
  lemma {:induction false} CreatedForGood(w: World, events: seq<Event>, more: seq<Event>)
    requires Untouched(w) && Created(Run(w, events), w.Path())
    ensures Created(Run(w, events + more), w.Path())
    decreases |more|
  {
    if more == [] {
      assert events + more == events;
    } else {
      var n := |more| - 1;
      CreatedForGood(w, events, more[..n]);
      InvHolds(w, events + more[..n]);
      assert (events + more)[..|events + more| - 1] == events + more[..n];
      StepOnTheTenant(Run(w, events + more[..n]), more[n]);
    }
  }

  lemma DecisionOnTheTenant(w: World, env: PassEnv)
    requires Inv(w)
    ensures var p := Decide(w, env);
            || (forall a :: a in p.actions ==> a.SyncResources?)
            || (&& p.actions == [SyncResources, CreateTenant(w.Path())] && AsksTheCms(w, env)
                && !Is(w.status.conditions, CreateDatabaseOperation, Unknown))
  {
    if ReachesTenant(w, env) {
      assert Decide(w, env) == DecideTenant(w, env);
      TenantIsGuarded(w, env);
      if !AsksTheCms(w, env) { assert Decide(w, env).actions == [SyncResources]; }
    } else {
      OtherStagesLeaveTheTenant(w, env);
    }
  }

  /** A pass performs what it decided, then at most one status write. */
  lemma PassActions(w: World, env: PassEnv)
    ensures var acts := Pass(w, env).actions;
            || acts == Decide(w, env).actions
            || (acts != [] && acts == Decide(w, env).actions + [WriteStatus(Pass(w, env).status)])
  {
  }

  /** Requests: over any run, a pass asks for a tenant at most once, at the Database's own path, with its
      Storage initialized and its resources described and synced, and never while an operation is recorded
      as running or once the Database is initialized. */
  lemma RequestsAreGuarded(w: World, events: seq<Event>, env: PassEnv, i: nat)
    requires Untouched(w)
    ensures var v := Run(w, events);
            i < |Pass(v, env).actions| && Pass(v, env).actions[i].CreateTenant? ==> RequestInOrder(v, w.Path(), env, i)
  {
    InvHolds(w, events);
    RequestIsGuarded(Run(w, events), env, i);
  }

  predicate RequestInOrder(w: World, path: string, env: PassEnv, i: nat)
    requires i < |Pass(w, env).actions|
  {
    && Pass(w, env).actions[i] == CreateTenant(path)
    && !Is(w.status.conditions, CreateDatabaseOperation, Unknown) && !Initialized(w)
    && env.storage == Some(true) && w.spec.operatorSync && env.resourcesOk && env.credentials
    && (w.spec.dedicated || w.spec.shared || (w.spec.serverless && env.sharedReady))
    && forall j :: 0 <= j < |Pass(w, env).actions| && Pass(w, env).actions[j].CreateTenant? ==> j == i
  }

  lemma RequestIsGuarded(w: World, env: PassEnv, i: nat)
    requires Inv(w)
    ensures i < |Pass(w, env).actions| && Pass(w, env).actions[i].CreateTenant? ==> RequestInOrder(w, w.Path(), env, i)
  {
    PassActions(w, env);
    DecisionOnTheTenant(w, env);
    assert i < |Decide(w, env).actions| ==> Decide(w, env).actions[i] in Decide(w, env).actions;
  }

  // ----- What each answer leaves -----

  function Passed(w: World, env: PassEnv): World { After(w, Pass(w, env)) }

  function Recorded(w: World): Option<Condition> { Find(w.status.conditions, CreateDatabaseOperation) }

  /** The pass gets to ask the CMS about the tenant. */
  predicate AsksTheCms(w: World, env: PassEnv) {
    && ReachesTenant(w, env) && !w.status.state.Preparing? && !w.skipInit
    && !Is(w.status.conditions, TenantInitialized, True)
    && (w.spec.dedicated || w.spec.shared || (w.spec.serverless && env.sharedReady)) && env.credentials
  }

  /** Neither the skip annotation nor the condition of an older release needs the CMS, and a pass that gets
      no further than what the tenant needs changes nothing. */
  lemma UnaskedLeaves(w: World, env: PassEnv)
    requires ReachesTenant(w, env) && !w.status.state.Preparing? && !AsksTheCms(w, env)
    ensures (forall a :: a in Pass(w, env).actions ==> !a.CreateTenant?) && Passed(w, env).cms == w.cms
    ensures Passed(w, env) == w || (env.statusWritten && Initialized(Passed(w, env)))
    ensures env.statusWritten ==> (Initialized(Passed(w, env)) <==> Skips(w))
  {
    var p := Decide(w, env);
    assert p == DecideTenant(w, env);
    if p.put.Some? { NewStatusFinds(w, p, DatabaseInitialized); }
  }

  lemma AskingDecides(w: World, env: PassEnv)
    requires AsksTheCms(w, env)
    ensures Decide(w, env) == if Is(w.status.conditions, CreateDatabaseOperation, Unknown) then DecidePoll(w, env)
                              else DecideSubmit(w, env)
  {
  }

  lemma CommitFinds(w: World, env: PassEnv, p: Plan)
    requires p.put.Some? && env.statusWritten && !p.put.value.condition.kind.DatabaseReady?
    ensures var v := After(w, Commit(w, env, p));
            && v.cms == p.cms && v.status.state == p.put.value.state
            && Recorded(v) == (if p.also.Some? && p.also.value.kind.CreateDatabaseOperation? then p.also
                               else if p.put.value.condition.kind.CreateDatabaseOperation?
                               then Some(p.put.value.condition) else Recorded(w))
            && Find(v.status.conditions, DatabaseInitialized)
                 == (if p.also.Some? && p.also.value.kind.DatabaseInitialized? then p.also
                     else if p.put.value.condition.kind.DatabaseInitialized?
                     then Some(p.put.value.condition) else Find(w.status.conditions, DatabaseInitialized))
  {
    NewStatusFinds(w, p, DatabaseInitialized);
    NewStatusFinds(w, p, CreateDatabaseOperation);
  }

  /** What the CMS says of a recorded operation that is polled. */
  predicate SaidRunning(w: World, env: PassEnv, id: Message) {
    env.poll.PollAnswered? && id.OperationId? && id.id < |w.cms| && w.cms[id.id].result.Running?
  }

  predicate SaidDone(w: World, env: PassEnv, id: Message) {
    env.poll.PollAnswered? && id.OperationId? && id.id < |w.cms| && Accepted(w.cms[id.id].result)
  }

  lemma PollDecides(w: World, env: PassEnv)
    requires Is(w.status.conditions, CreateDatabaseOperation, Unknown)
    ensures var id, p := Recorded(w).value.message, DecidePoll(w, env);
            && p.cms == w.cms && (p.put.Some? ==> p.put.value.state == w.status.state)
            && if !id.Empty? && env.poll.PollFailed? then p.put.None?
               else if !id.Empty? && SaidDone(w, env, id) then p == CompleteTenant(w, Hold(w, [SyncResources]))
               else && p.put.Some? && p.also.None? && p.put.value.condition.kind.CreateDatabaseOperation?
                    && if !id.Empty? && SaidRunning(w, env, id)
                       then p.put.value.condition
                              == Condition(CreateDatabaseOperation, Unknown, InProgress, w.generation, id)
                       else p.put.value.condition.status.False?
  {
  }

  /** Polling: an operation without identifier, or one the CMS calls failed or does not know, is given up;
      one that succeeded completes the tenant; one that runs stays recorded; a failed call changes nothing. */
  lemma PollLeaves(w: World, env: PassEnv)
    requires AsksTheCms(w, env) && Is(w.status.conditions, CreateDatabaseOperation, Unknown) && env.statusWritten
    ensures var id, v := Recorded(w).value.message, Passed(w, env);
            && v.cms == w.cms && v.status.state == w.status.state
            && (Initialized(v) <==> !id.Empty? && SaidDone(w, env, id))
            && if !id.Empty? && env.poll.PollFailed? then v == w
               else if !id.Empty? && SaidRunning(w, env, id)
               then Recorded(v) == Some(Condition(CreateDatabaseOperation, Unknown, InProgress, w.generation, id))
               else Is(v.status.conditions, CreateDatabaseOperation, if Initialized(v) then True else False)
  {
    AskingDecides(w, env);
    PollDecides(w, env);
    if DecidePoll(w, env).put.Some? { CommitFinds(w, env, DecidePoll(w, env)); }
  }

  lemma SubmitDecides(w: World, env: PassEnv)
    ensures var p := DecideSubmit(w, env);
            && p.actions == [SyncResources, CreateTenant(w.Path())]
            && (p.put.Some? ==> p.put.value.state == w.status.state)
            && p.cms == (if env.submission.Refused? then w.cms
                         else w.cms + [TenantOperation(w.Path(), env.submission.taken)])
            && if env.submission.Answered? && Accepted(env.submission.taken)
               then p == CompleteTenant(w, Plan(p.cms, p.actions, None, None))
               else if env.submission.Answered? && env.submission.taken.Running?
               then p.also.None? && p.put.Some? && p.put.value.condition
                      == Condition(CreateDatabaseOperation, Unknown, InProgress, w.generation,
                                   if env.submission.idShown then OperationId(|w.cms|) else Empty)
               else p.put.None?
  {
  }

  /** Submitting: only an answer with a running operation is recorded, under the identifier it shows, and
      only one with an operation that succeeded completes the tenant; after any other the next pass asks again. */
  lemma SubmitLeaves(w: World, env: PassEnv)
    requires AsksTheCms(w, env) && !Is(w.status.conditions, CreateDatabaseOperation, Unknown) && env.statusWritten
    ensures CreateTenant(w.Path()) in Pass(w, env).actions
    ensures var v := Passed(w, env);
            && v.cms == (if env.submission.Refused? then w.cms
                         else w.cms + [TenantOperation(w.Path(), env.submission.taken)])
            && (Initialized(v) <==> env.submission.Answered? && Accepted(env.submission.taken))
            && if Initialized(v) then Is(v.status.conditions, CreateDatabaseOperation, True)
               else if env.submission.Answered? && env.submission.taken.Running?
               then Recorded(v) == Some(Condition(CreateDatabaseOperation, Unknown, InProgress, w.generation,
                                                  if env.submission.idShown then OperationId(|w.cms|) else Empty))
               else v.status == w.status
  {
    var p := DecideSubmit(w, env);
    AskingDecides(w, env);
    SubmitDecides(w, env);
    assert p.actions[1] in Commit(w, env, p).actions by { assert Commit(w, env, p).actions[1] == p.actions[1]; }
    if p.put.Some? { CommitFinds(w, env, p); }
  }

  // ----- A failed creation is retried -----

  /** The Database is past its preparation, and everything the tenant needs is at hand. */
  predicate AwaitsTenant(w: World) {
    && w.status.conditions != [] && !w.status.state.Pending? && !w.status.state.Preparing?
    && w.spec.operatorSync && Is(w.status.conditions, DatabasePrepared, True)
    && (w.spec.dedicated || w.spec.shared || w.spec.serverless)
  }

  predicate Healthy(env: PassEnv) {
    && env.storage == Some(true) && env.resourcesOk && env.sharedReady && env.credentials
    && env.submission.Answered? && env.submission.idShown
    && (env.submission.taken.Running? || Accepted(env.submission.taken))
    && env.poll.PollAnswered? && env.statusWritten
  }

  /** Every running operation ends with success. */
  function Settle(w: World): (v: World)
    ensures |v.cms| == |w.cms| && v.status == w.status
  {
    w.(cms := seq(|w.cms|, i requires 0 <= i < |w.cms| =>
      if w.cms[i].result.Running? then w.cms[i].(result := Finished(Success)) else w.cms[i]))
  }

  function Round(w: World, env: PassEnv): World { After(Settle(w), Pass(Settle(w), env)) }

  function Rounds(w: World, envs: seq<PassEnv>): World
    decreases |envs|
  {
    if envs == [] then w else Round(Rounds(w, envs[..|envs| - 1]), envs[|envs| - 1])
  }

  /** How many healthy rounds the tenant still needs: a recorded operation that will not succeed must
      first be given up, then another one is submitted, then it is seen to have succeeded. */
  function TenantRank(w: World): nat {
    if Initialized(w) then 0
    else if !Is(w.status.conditions, CreateDatabaseOperation, Unknown) then 2
    else
      var id := Find(w.status.conditions, CreateDatabaseOperation).value.message;
      if id.OperationId? && id.id < |w.cms| && (w.cms[id.id].result.Running? || Accepted(w.cms[id.id].result))
      then 1 else 3
  }

  predicate Completes(p: Plan) {
    && p.put.Some? && p.put.value.condition.kind.DatabaseInitialized? && p.put.value.condition.status.True?
    && p.also.Some? && p.also.value.kind.CreateDatabaseOperation?
  }

  lemma CompletionLands(w: World, env: PassEnv, p: Plan)
    requires env.statusWritten && Completes(p)
    ensures Initialized(After(w, Commit(w, env, p)))
  {
    NewStatusFinds(w, p, DatabaseInitialized);
  }

  /** The plan records an operation and puts nothing else about the tenant. */
  predicate Records(w: World, p: Plan) {
    && p.put.Some? && p.also.None? && p.put.value.condition.kind.CreateDatabaseOperation?
    && p.put.value.state == w.status.state
  }

  lemma RecordLands(w: World, env: PassEnv, p: Plan)
    requires env.statusWritten && Records(w, p) && AwaitsTenant(w)
    ensures var w' := After(w, Commit(w, env, p));
            && Find(w'.status.conditions, CreateDatabaseOperation) == Some(p.put.value.condition)
            && AwaitsTenant(w') && Initialized(w') == Initialized(w) && w'.cms == p.cms
  {
    NewStatusFinds(w, p, CreateDatabaseOperation);
    NewStatusFinds(w, p, DatabaseInitialized);
    NewStatusFinds(w, p, DatabasePrepared);
  }

  lemma DecidesTheTenant(w: World, env: PassEnv)
    requires AwaitsTenant(w) && Healthy(env) && !Initialized(w)
    ensures Decide(w, env) == if Skips(w) then CompleteTenant(w, Hold(w, [SyncResources]))
                              else if Is(w.status.conditions, CreateDatabaseOperation, Unknown) then DecidePoll(w, env)
                              else DecideSubmit(w, env)
  {
  }

  lemma InitializedStays(w: World, env: PassEnv)
    requires Initialized(w)
    ensures Initialized(After(w, Pass(w, env)))
  {
    OtherStagesLeaveTheTenant(w, env);
    if Decide(w, env).put.Some? { NewStatusFinds(w, Decide(w, env), DatabaseInitialized); }
  }

  /** What a plan leaves, in terms of the rank: completion ends it, and a record is worth 1 if it names
      an operation that can still succeed, 2 if it gives one up. */
  lemma RecordRanks(w: World, env: PassEnv, p: Plan)
    requires env.statusWritten && Records(w, p) && AwaitsTenant(w) && !Initialized(w)
    ensures var c, w' := p.put.value.condition, After(w, Commit(w, env, p));
            && AwaitsTenant(w')
            && (c.status.False? ==> TenantRank(w') == 2)
            && ((c.status.Unknown? && c.message.OperationId? && c.message.id < |p.cms|
                 && p.cms[c.message.id].result.Running?) ==> TenantRank(w') == 1)
  {
    RecordLands(w, env, p);
  }

  lemma SubmitDescends(w: World, env: PassEnv)
    requires Healthy(env) && !Is(w.status.conditions, CreateDatabaseOperation, Unknown)
    ensures var p := DecideSubmit(w, env);
            || Completes(p)
            || (Records(w, p) && p.put.value.condition
                  == Condition(CreateDatabaseOperation, Unknown, InProgress, w.generation, OperationId(|w.cms|))
                && |p.cms| == |w.cms| + 1 && p.cms[|w.cms|].result.Running?)
  {
  }

  /** A settled operation that is polled has either succeeded or is given up. */
  lemma PollDescends(w: World, env: PassEnv)
    requires Healthy(env) && Is(w.status.conditions, CreateDatabaseOperation, Unknown) && !Initialized(w)
    requires forall i :: 0 <= i < |w.cms| ==> w.cms[i].result.Finished?
    ensures var p := DecidePoll(w, env);
            if TenantRank(w) == 1 then Completes(p) else Records(w, p) && p.put.value.condition.status.False?
  {
  }

  /** Settling changes no rank. */
  lemma SettleRanks(w: World)
    ensures var v := Settle(w);
            && TenantRank(v) == TenantRank(w) && AwaitsTenant(v) == AwaitsTenant(w) && Initialized(v) == Initialized(w)
            && forall i :: 0 <= i < |v.cms| ==> v.cms[i].result.Finished?
  {
  }

  lemma SettledPassDescends(w: World, env: PassEnv)
    requires AwaitsTenant(w) && Healthy(env) && !Initialized(w)
    requires forall i :: 0 <= i < |w.cms| ==> w.cms[i].result.Finished?
    ensures var w' := After(w, Pass(w, env));
            (Initialized(w') || AwaitsTenant(w')) && TenantRank(w') < TenantRank(w)
  {
    var p := Decide(w, env);
    DecidesTheTenant(w, env);
    if Skips(w) {
      CompletionLands(w, env, p);
    } else {
      if Is(w.status.conditions, CreateDatabaseOperation, Unknown) {
        PollDescends(w, env);
      } else {
        SubmitDescends(w, env);
      }
      if Completes(p) { CompletionLands(w, env, p); } else { RecordRanks(w, env, p); }
    }
  }

  /** Each healthy round brings the tenant nearer. */
  lemma RoundDescends(w: World, env: PassEnv)
    requires AwaitsTenant(w) && Healthy(env) && !Initialized(w)
    ensures AwaitsTenant(Round(w, env)) || Initialized(Round(w, env))
    ensures TenantRank(Round(w, env)) < TenantRank(w)
  {
    SettleRanks(w);
    SettledPassDescends(Settle(w), env);
  }

  /** Whatever a failed creation left behind, three healthy rounds initialize the Database. A failed
      ReplaceConfig of a Storage has no such recovery. */
  lemma FailureIsRetried(w: World, envs: seq<PassEnv>)
    requires AwaitsTenant(w) && forall i :: 0 <= i < |envs| ==> Healthy(envs[i])
    requires |envs| >= 3
    ensures Initialized(Rounds(w, envs))
  {
    RoundsDescend(w, envs);
  }

  lemma {:induction false} RoundsDescend(w: World, envs: seq<PassEnv>)
    requires AwaitsTenant(w) && forall i :: 0 <= i < |envs| ==> Healthy(envs[i])
    ensures AwaitsTenant(Rounds(w, envs)) || Initialized(Rounds(w, envs))
    ensures TenantRank(Rounds(w, envs)) == 0 || TenantRank(Rounds(w, envs)) + |envs| <= 3
    decreases |envs|
  {
    if envs != [] {
      var before, env := envs[..|envs| - 1], envs[|envs| - 1];
      RoundsDescend(w, before);
      var v := Rounds(w, before);
      if Initialized(v) { InitializedStays(Settle(v), env); } else { RoundDescends(v, env); }
    }
  }
}
