/** The calls of a Storage pass: what changes outside the operator changes by a call, what becomes of the
    initialization Job, and what each answer of the CMS leaves. */
module StorageCalls {
  import opened Wrappers
  import opened Conditions
  import opened Cms
  import opened StorageModel
  import opened StorageSafety

  function Passed(w: World, env: PassEnv): World { After(w, Pass(w, env)) }

  // ----- Effects are calls -----

  /** The effects of a plan on the Job and the CMS are those of its calls, which do not write the status. */
  predicate Accounted(w: World, env: PassEnv, p: Plan) {
    && (CreateJob in p.actions <==> w.job.None? && p.job.Some?)
    && (DeleteJob in p.actions <==> w.job.Some? && p.job.None?)
    && (forall a :: a in p.actions ==> !a.WriteStatus?)
    && (forall a :: a in p.actions && a.SubmitConfig? ==> a == SubmitConfig(w.Generation(), w.spec.config))
    && p.cms == (if SubmitConfig(w.Generation(), w.spec.config) in p.actions && !env.submission.Refused?
                 then w.cms + [ConfigOperation(w.Generation(), w.spec.config, env.submission.taken)] else w.cms)
  }

  lemma InitializationIsAccounted(w: World, env: PassEnv)
    ensures Accounted(w, env, DecideInitialization(w, env))
  {
  }

  lemma ConfigSyncIsAccounted(w: World, env: PassEnv)
    ensures Accounted(w, env, DecideConfigSync(w, env))
  {
  }

  lemma StartIsAccounted(w: World, env: PassEnv)
    ensures Accounted(w, env, DecideConfigStart(w, env)) && Accounted(w, env, DecidePause(w))
  {
  }

  lemma DecisionIsAccounted(w: World, env: PassEnv)
    ensures Accounted(w, env, Decide(w, env))
  {
    var cs := w.status.conditions;
    if cs == [] || w.status.state.Pending? || !w.spec.operatorSync {
    } else if !env.resourcesOk || !env.nodeSetsPrunedOk || !Is(cs, StoragePrepared, True) {
    } else if !Initialized(w) { InitializationIsAccounted(w, env);
    } else if ConfigStale(w) { StartIsAccounted(w, env);
    } else if !Is(cs, ConfigurationSynced, True) { ConfigSyncIsAccounted(w, env);
    } else { StartIsAccounted(w, env); }
  }

  /** Nothing outside changes but by a call: a Job comes and goes, and a CMS operation begins, exactly with
      the calls that say so; and the status changes only if it is written. */
  lemma EffectsAreCalls(w: World, env: PassEnv)
    ensures var o := Pass(w, env);
            && (CreateJob in o.actions <==> w.job.None? && o.job.Some?)
            && (DeleteJob in o.actions <==> w.job.Some? && o.job.None?)
            && o.cms == (if SubmitConfig(w.Generation(), w.spec.config) in o.actions && !env.submission.Refused?
                         then w.cms + [ConfigOperation(w.Generation(), w.spec.config, env.submission.taken)] else w.cms)
            && (o.status != w.status ==> WriteStatus(o.status) in o.actions)
  {
    DecisionIsAccounted(w, env);
    var p := Decide(w, env);
    CommitIsAccounted(w, env, p);
  }

  lemma CommitIsAccounted(w: World, env: PassEnv, p: Plan)
    ensures var o := Commit(w, env, p);
            && o.job == p.job && o.cms == p.cms
            && (forall a :: a in o.actions && !a.WriteStatus? <==> a in p.actions && !a.WriteStatus?)
            && (o.status != w.status ==> WriteStatus(o.status) in o.actions)
  {
    var o := Commit(w, env, p);
    if p.put.Some? && env.statusWritten { assert o.actions[|p.actions|] == WriteStatus(o.status); }
  }

  // ----- Before the initialization -----

  function Goal(w: World): ConditionType { if w.spec.pause then StoragePaused else StorageReady }

  /** The first two passes only say where they are. */
  lemma FirstReports(w: World, env: PassEnv)
    requires env.statusWritten
    ensures w.status.conditions == [] ==>
              Passed(w, env).status
                == Status(w.status.state, [Condition(Goal(w), Unknown, InProgress, w.Generation(), Note)])
    ensures w.status.conditions != [] && w.status.state.Pending? ==>
              && Passed(w, env).status.state.Preparing?
              && Find(Passed(w, env).status.conditions, StoragePrepared)
                   == Some(Condition(StoragePrepared, Unknown, InProgress, w.Generation(), Note))
    ensures w.status.conditions == [] || w.status.state.Pending? ==>
              Pass(w, env).actions == [WriteStatus(Passed(w, env).status)]
  {
  }

  /** A pass that may not act changes nothing; one that fails to sync or to prune reports the preparation
      unmet and takes readiness back; the first that succeeds reports it met. */
  lemma PreparationIsReported(w: World, env: PassEnv)
    requires w.status.conditions != [] && !w.status.state.Pending? && env.statusWritten
    ensures !w.spec.operatorSync ==> Pass(w, env) == Outcome(w.status, w.job, w.cms, [])
    ensures w.spec.operatorSync ==>
              var prepared := Find(Passed(w, env).status.conditions, StoragePrepared);
              if !env.resourcesOk || !env.nodeSetsPrunedOk then
                && prepared == Some(Condition(StoragePrepared, False, InProgress, w.Generation(), Note))
                && Is(Passed(w, env).status.conditions, Goal(w), False)
              else if !Is(w.status.conditions, StoragePrepared, True) then
                prepared == Some(Condition(StoragePrepared, True, Completed, w.Generation(), Note))
              else prepared == Find(w.status.conditions, StoragePrepared)
  {
    var p := Decide(w, env);
    if p.put.Some? { NewStatusFinds(w, p.put.value, StoragePrepared); }
    if env.resourcesOk && env.nodeSetsPrunedOk && Is(w.status.conditions, StoragePrepared, True) {
      LaterPutsOther(w, env);
    }
  }

  lemma LaterPutsOther(w: World, env: PassEnv)
    requires w.status.conditions != [] && !w.status.state.Pending? && env.resourcesOk && env.nodeSetsPrunedOk
    requires Is(w.status.conditions, StoragePrepared, True)
    ensures Decide(w, env).put.Some? ==> !Decide(w, env).put.value.condition.kind.StoragePrepared?
  {
    EarlyPutsOther(w, env);
    if !w.spec.operatorSync {
    } else if !Initialized(w) {
    } else if ConfigStale(w) || !Is(w.status.conditions, ConfigurationSynced, True) {
    } else if w.status.state.Initializing? {
    }
  }

  lemma EarlyPutsOther(w: World, env: PassEnv)
    ensures var p := DecideInitialization(w, env); p.put.Some? ==> p.put.value.condition.kind.StorageInitialized?
    ensures var p := DecideConfigStart(w, env); p.put.Some? ==> p.put.value.condition.kind.ConfigurationSynced?
    ensures var p := DecideConfigSync(w, env);
            p.put.Some? ==> p.put.value.condition.kind in {ConfigurationSynced, ReplaceConfigOperation}
    ensures var p := DecidePause(w); p.put.Some? ==> p.put.value.condition.kind in {StorageReady, StoragePaused}
  {
  }

  // ----- The initialization Job -----

  /** The pass gets to look at the Job. */
  predicate ComesToTheJob(w: World, env: PassEnv) {
    && w.status.conditions != [] && !w.status.state.Pending? && !w.status.state.Preparing?
    && w.spec.operatorSync && env.resourcesOk && env.nodeSetsPrunedOk
    && Is(w.status.conditions, StoragePrepared, True) && !Is(w.status.conditions, StorageInitialized, True)
    && !w.skipInit && !Is(w.status.conditions, StorageReady, True) && env.jobReadable
  }

  /** The first failed pod that tells anything says that the storage had been initialized. */
  predicate SaysInitialized(pods: Option<seq<Pod>>) {
    pods.Some? && exists i :: 0 <= i < |pods.value| && SaysSoFirst(pods.value, i)
  }

  predicate SaysSoFirst(pods: seq<Pod>, i: nat) {
    i < |pods| && pods[i] == Pod(true, Some(true)) && forall j :: 0 <= j < i ==> !Decisive(pods[j])
  }

  /** All failed pods could be read, and none says anything. */
  predicate SaysNothing(pods: Option<seq<Pod>>) {
    pods.Some? && forall i :: 0 <= i < |pods.value| ==> !pods.value[i].failed || pods.value[i].log == Some(false)
  }

  lemma NothingSaid(pods: seq<Pod>)
    ensures CheckLogs(pods).NoMatch? <==> SaysNothing(Some(pods))
  {
    assert forall i :: 0 <= i < |pods| ==> (Decisive(pods[i]) <==> !(!pods[i].failed || pods[i].log == Some(false)));
  }

  lemma FirstSays(pods: seq<Pod>, i: nat)
    requires i < |pods| && Decisive(pods[i]) && forall j :: 0 <= j < i ==> !Decisive(pods[j])
    ensures SaysInitialized(Some(pods)) <==> pods[i] == Pod(true, Some(true))
  {
    if k :| 0 <= k < |pods| && SaysSoFirst(pods, k) { assert Decisive(pods[k]); }
    assert SaysSoFirst(pods, i) <==> pods[i] == Pod(true, Some(true));
  }

  lemma {:induction false} SomethingSaid(pods: seq<Pod>, i: nat)
    requires i < |pods| && Decisive(pods[i]) && forall j :: 0 <= j < i ==> !Decisive(pods[j])
    ensures CheckLogs(pods).AlreadyInitialized? <==> pods[i] == Pod(true, Some(true))
  {
    if i > 0 {
      assert !Decisive(pods[0]);
      SomethingSaid(pods[1..], i - 1);
    }
  }

  lemma SomebodySays(pods: seq<Pod>)
    requires !SaysNothing(Some(pods))
    ensures CheckLogs(pods).AlreadyInitialized? <==> SaysInitialized(Some(pods))
  {
    var k :| 0 <= k < |pods| && pods[k].failed && pods[k].log != Some(false);
    assert Decisive(pods[k]);
    var i := FirstDecisive(pods);
    SomethingSaid(pods, i);
    FirstSays(pods, i);
  }

  lemma NobodySays(pods: seq<Pod>)
    requires SaysNothing(Some(pods))
    ensures !SaysInitialized(Some(pods))
  {
  }

  lemma LogsSay(pods: Option<seq<Pod>>)
    ensures CheckFailedJob(pods).AlreadyInitialized? <==> SaysInitialized(pods)
    ensures CheckFailedJob(pods).NoMatch? <==> SaysNothing(pods)
  {
    if pods.Some? {
      NothingSaid(pods.value);
      if SaysNothing(pods) { NobodySays(pods.value); } else { SomebodySays(pods.value); }
    }
  }

  lemma {:induction false} FirstDecisive(pods: seq<Pod>) returns (i: nat)
    requires exists i :: 0 <= i < |pods| && Decisive(pods[i])
    ensures i < |pods| && Decisive(pods[i]) && forall j :: 0 <= j < i ==> !Decisive(pods[j])
  {
    if Decisive(pods[0]) {
      i := 0;
    } else {
      assert pods == [pods[0]] + pods[1..];
      i := FirstDecisive(pods[1..]);
      i := i + 1;
    }
  }

  /** The Job has failed for good. */
  predicate Exhausted(job: Job) { job.failed == job.backoffLimit || JobFailed in job.conditions }

  /** The pods leave no other way than to make the Job anew. */
  predicate GivesUp(job: Job, env: PassEnv) { job.succeeded == 0 && SaysNothing(env.pods) && Exhausted(job) }

  lemma JobPlan(w: World, env: PassEnv)
    requires ComesToTheJob(w, env)
    ensures var p := DecideInitialization(w, env);
            match w.job
            case None => p.put.None? && p.job == if env.jobCreated then Some(Job(0, 0, 6, [])) else None
            case Some(job) =>
              if job.succeeded > 0 then p == InitCompleted(w, Hold(w, [SyncResources]))
              else if SaysInitialized(env.pods) && env.jobDeleted then
                p == InitCompleted(w, Plan(None, w.cms, [SyncResources, DeleteJob], None))
              else if GivesUp(job, env) && env.jobDeleted then
                p.job.None? && p.put == Some(Put(w.status.state, Condition(StorageInitialized, False, InProgress,
                                                                           w.Generation(), Empty)))
              else p == Hold(w, [SyncResources])
  {
    LogsSay(env.pods);
  }

  /** The Job, by what a writing pass finds: a missing one is made; one that succeeded, or whose pods say the
      storage had been initialized before, completes the initialization, the latter only once it could be
      deleted; one that failed for good is deleted, to be made anew; and any other is waited for. */
  lemma JobDecides(w: World, env: PassEnv)
    requires ComesToTheJob(w, env) && env.statusWritten
    ensures var v := Passed(w, env);
            match w.job
            case None => v.status == w.status && v.job == if env.jobCreated then Some(Job(0, 0, 6, [])) else None
            case Some(job) =>
              if job.succeeded > 0 then Initialized(v) && v.job == w.job
              else if SaysInitialized(env.pods) && env.jobDeleted then Initialized(v) && v.job.None?
              else if GivesUp(job, env) && env.jobDeleted then
                v.job.None? && v.status.state == w.status.state
                && Find(v.status.conditions, StorageInitialized)
                     == Some(Condition(StorageInitialized, False, InProgress, w.Generation(), Empty))
              else v == w
  {
    var p := DecideInitialization(w, env);
    assert Decide(w, env) == p;
    JobPlan(w, env);
    if p.put.Some? { NewStatusFinds(w, p.put.value, StorageInitialized); }
  }

  lemma GivenUpComesBack(w: World, env: PassEnv, next: PassEnv)
    requires ComesToTheJob(w, env) && env.statusWritten && w.job.Some? && GivesUp(w.job.value, env) && env.jobDeleted
    requires !SaysInitialized(env.pods)
    requires next.resourcesOk && next.nodeSetsPrunedOk && next.jobReadable
    ensures ComesToTheJob(Passed(w, env), next)
  {
    var p := DecideInitialization(w, env);
    assert Decide(w, env) == p;
    JobPlan(w, env);
    NewStatusFinds(w, p.put.value, StorageInitialized);
    NewStatusFinds(w, p.put.value, StoragePrepared);
    NewStatusFinds(w, p.put.value, StorageReady);
  }

  /** A Job that failed for good is made anew by two passes whose calls succeed. */
  lemma FailedJobIsReplaced(w: World, env: PassEnv, next: PassEnv)
    requires ComesToTheJob(w, env) && env.statusWritten && w.job.Some? && GivesUp(w.job.value, env) && env.jobDeleted
    requires next.resourcesOk && next.nodeSetsPrunedOk && next.jobReadable && next.jobCreated && next.statusWritten
    ensures Passed(Passed(w, env), next).job == Some(Job(0, 0, 6, []))
  {
    assert !SaysInitialized(env.pods);
    JobDecides(w, env);
    GivenUpComesBack(w, env, next);
    JobDecides(Passed(w, env), next);
  }

  /** The annotation, and the condition of an older release, complete the initialization without the Job. */
  lemma ShortcutsInitialize(w: World, env: PassEnv)
    requires Is(w.status.conditions, StoragePrepared, True) && !Initialized(w)
    requires w.status.conditions != [] && !w.status.state.Pending? && !w.status.state.Preparing?
    requires w.spec.operatorSync && env.resourcesOk && env.nodeSetsPrunedOk && env.statusWritten
    ensures w.skipInit || Is(w.status.conditions, StorageReady, True) ==>
              Initialized(Passed(w, env)) && Passed(w, env).job == w.job
  {
  }

  // ----- The CMS -----

  /** The pass gets to talk to the CMS about the configuration. */
  predicate TalksToTheCms(w: World, env: PassEnv) {
    ReachesConfigSync(w, env) && w.spec.config.Dynamic? && w.spec.config.valid && env.credentials
  }

  function Recorded(w: World): Option<Condition> { Find(w.status.conditions, ReplaceConfigOperation) }

  lemma TalkingDecides(w: World, env: PassEnv)
    requires ReachesConfigSync(w, env)
    ensures Decide(w, env) == DecideConfigSync(w, env)
  {
  }

  /** A configuration that is not valid, and one for which there are no credentials, is never sent. */
  lemma SilenceLeaves(w: World, env: PassEnv)
    requires ReachesConfigSync(w, env) && !TalksToTheCms(w, env)
    ensures Passed(w, env) == w && Pass(w, env).actions == [SyncResources]
  {
    TalkingDecides(w, env);
  }

  predicate SaidRunning(w: World, env: PassEnv, id: Message) {
    env.poll.PollAnswered? && id.OperationId? && id.id < |w.cms| && w.cms[id.id].result.Running?
  }

  predicate SaidDone(w: World, env: PassEnv, id: Message) {
    env.poll.PollAnswered? && id.OperationId? && id.id < |w.cms| && Accepted(w.cms[id.id].result)
  }

  lemma PollDecides(w: World, env: PassEnv)
    requires Polling(w)
    ensures var id, p := Recorded(w).value.message, DecidePoll(w, env);
            && p.job == w.job && p.cms == w.cms
            && match p.put
               case None => !id.Empty? && !SaidRunning(w, env, id) && !SaidDone(w, env, id)
               case Some(Put(state, c)) =>
                 && state == w.status.state
                 && if id.Empty? then c == Condition(ReplaceConfigOperation, False, Failed, 0, Note)
                    else if SaidDone(w, env, id)
                    then c == Condition(ReplaceConfigOperation, True, Completed, w.Generation(), Note)
                    else SaidRunning(w, env, id)
                         && c == Condition(ReplaceConfigOperation, Unknown, InProgress, w.Generation(), id)
  {
  }

  /** Polling: an operation without identifier is given up, of no generation; one that succeeded is recorded
      so at the current generation; one that runs stays recorded; and whatever else is answered, a failure
      too, changes nothing. */
  lemma PollLeaves(w: World, env: PassEnv)
    requires TalksToTheCms(w, env) && Polling(w) && env.statusWritten
    ensures var id, v := Recorded(w).value.message, Passed(w, env);
            && v.cms == w.cms && v.status.state == w.status.state
            && if id.Empty? then Recorded(v) == Some(Condition(ReplaceConfigOperation, False, Failed, 0, Note))
               else if SaidDone(w, env, id)
               then Recorded(v) == Some(Condition(ReplaceConfigOperation, True, Completed, w.Generation(), Note))
               else if SaidRunning(w, env, id)
               then Recorded(v) == Some(Condition(ReplaceConfigOperation, Unknown, InProgress, w.Generation(), id))
               else v == w
  {
    var p := DecidePoll(w, env);
    TalkingDecides(w, env);
    PollDecides(w, env);
    if p.put.Some? { NewStatusFinds(w, p.put.value, ReplaceConfigOperation); }
  }

  /** What an answered request is recorded as. */
  function SubmitRecord(w: World, s: Submission): Condition {
    if s.Answered? && s.taken.Running? then
      Condition(ReplaceConfigOperation, Unknown, InProgress, w.Generation(),
                if s.idShown then OperationId(|w.cms|) else Empty)
    else if s.Answered? && Accepted(s.taken) then
      Condition(ReplaceConfigOperation, True, Completed, w.Generation(), Note)
    else
      Condition(ReplaceConfigOperation, False, Failed, w.Generation(), Note)
  }

  lemma SubmitDecides(w: World, env: PassEnv)
    ensures var s, p := env.submission, DecideSubmit(w, env);
            && p.actions == [SyncResources, SubmitConfig(w.Generation(), w.spec.config)]
            && if s.Refused? || s.Unanswered? then p.put.None?
               else && p.put.Some? && p.put.value.state == w.status.state
                    && p.put.value.condition == SubmitRecord(w, s)
  {
  }

  /** Submitting: an answered request is recorded at the current generation, with how it went or, while it
      runs, under the identifier it shows; one that was refused or never answered is not recorded at all. */
  lemma SubmitLeaves(w: World, env: PassEnv)
    requires TalksToTheCms(w, env) && !Polling(w) && Submitting(w) && env.statusWritten
    ensures SubmitConfig(w.Generation(), w.spec.config) in Pass(w, env).actions
    ensures var s, v := env.submission, Passed(w, env);
            && v.status.state == w.status.state
            && if s.Refused? || s.Unanswered? then v.status == w.status else Recorded(v) == Some(SubmitRecord(w, s))
  {
    var p := DecideSubmit(w, env);
    TalkingDecides(w, env);
    SubmitDecides(w, env);
    assert p.actions[1] in Commit(w, env, p).actions by { assert Commit(w, env, p).actions[1] == p.actions[1]; }
    if p.put.Some? { NewStatusFinds(w, p.put.value, ReplaceConfigOperation); }
  }

  /** A request is still to be made after one whose answer got lost. */
  lemma LostAnswerLeaves(w: World, env: PassEnv, next: PassEnv)
    requires TalksToTheCms(w, env) && !Polling(w) && Submitting(w) && env.submission.Unanswered? && env.statusWritten
    requires next.resourcesOk && next.nodeSetsPrunedOk && next.credentials
    ensures var v := Passed(w, env);
            && TalksToTheCms(v, next) && !Polling(v) && Submitting(v)
            && v.past == w.past && v.spec == w.spec
            && v.cms == w.cms + [ConfigOperation(w.Generation(), w.spec.config, env.submission.taken)]
  {
    SubmitLeaves(w, env);
    EffectsAreCalls(w, env);
  }

  /** A request whose answer got lost is sent again: the CMS then has two operations with the same
      configuration, the first of which nothing refers to. */
  lemma LostAnswersRepeat(w: World, env: PassEnv, next: PassEnv)
    requires TalksToTheCms(w, env) && !Polling(w) && Submitting(w) && env.submission.Unanswered? && env.statusWritten
    requires next.resourcesOk && next.nodeSetsPrunedOk && next.credentials && next.statusWritten
    requires !next.submission.Refused?
    ensures Passed(Passed(w, env), next).cms
         == w.cms + [ConfigOperation(w.Generation(), w.spec.config, env.submission.taken),
                     ConfigOperation(w.Generation(), w.spec.config, next.submission.taken)]
  {
    LostAnswerLeaves(w, env, next);
    SubmitLeaves(Passed(w, env), next);
    EffectsAreCalls(Passed(w, env), next);
  }
}
