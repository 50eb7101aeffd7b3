/** `CreateOrUpdateOrMaybeIgnore`, the primitive through which every controller writes its objects:
    create what is missing, replace what differs, and leave alone what a guard protects. */
module GuardedApply {
  import opened Wrappers

  datatype Kind = StatefulSetKind | SecretKind | JobKind | OtherKind(name: string)

  datatype ObjectKey = ObjectKey(kind: Kind, namespace: string, name: string)

  datatype Body =
    | StatefulSet(selector: map<string, string>, replicas: int, template: string)
    | Secret(stringData: map<string, string>, data: map<string, string>)
    | Job(payload: string)
    | Other(kindName: string, payload: string)

  datatype Object = Object(namespace: string, name: string, labels: map<string, string>, body: Body, status: string)
  {
    function Key(): ObjectKey {
      ObjectKey(match body
                case StatefulSet(_, _, _) => StatefulSetKind
                case Secret(_, _) => SecretKind
                case Job(_) => JobKind
                case Other(kindName, _) => OtherKind(kindName), namespace, name)
    }
  }

  /** What a builder makes of an object; none if it fails. */
  type Build = Object -> Option<Object>

  /** The guards of the controllers, named after them; `pause` is that of the owner's spec. */
  datatype Guard =
    | NoGuard
    | StorageGuard(pause: bool)
    | StorageNodeSetGuard(pause: bool)
    | DatabaseGuard(pause: bool)
    | DatabaseNodeSetGuard(pause: bool)
    | JobGuard

  datatype Verdict = Write | Ignore | Panic

  function PausedAtZero(pause: bool, existing: Option<Object>): Verdict {
    if existing.Some? && existing.value.body.StatefulSet? && pause && existing.value.body.replicas == 0
    then Ignore else Write
  }

  /** Whether a guard ignores a change; `existing` is none when the object would be created. */
  function Judge(guard: Guard, existing: Option<Object>, obj: Object): Verdict {
    match guard
    case NoGuard => Write
    case StorageGuard(pause) => PausedAtZero(pause, existing)
    case StorageNodeSetGuard(pause) => PausedAtZero(pause, existing)
    case DatabaseGuard(pause) =>
      if existing.Some? && existing.value.body.Secret?
         && (existing.value.body.stringData != map[] || existing.value.body.data != map[]) then Ignore
      else PausedAtZero(pause, existing)
    case DatabaseNodeSetGuard(pause) =>
      // This guard looks at the new object and dereferences the old one.
      if obj.body.StatefulSet? && pause then
        if existing.None? then Panic else PausedAtZero(pause, existing)
      else Write
    case JobGuard => if existing.Some? && existing.value.body.Job? then Ignore else Write
  }

  /** A builder may not move the object to another name or namespace. (Its type it cannot change.) */
  function Mutate(build: Build, obj: Object): (r: Option<Object>)
    ensures r.Some? ==> r.value.Key() == obj.Key()
  {
    var r := build(obj);
    if r.Some? && r.value.Key() == obj.Key() then r else None
  }

  /** What the API server keeps of an object it is sent: the plain strings of a Secret become data. */
  function Stored(obj: Object, status: string): (r: Object)
    ensures r.Key() == obj.Key()
  {
    var body := if obj.body.Secret? then Secret(map[], obj.body.data + obj.body.stringData) else obj.body;
    obj.(body := body, status := status)
  }

  function KeepSelector(existing: Object, updated: Object): (r: Object)
    requires updated.Key() == existing.Key()
    ensures r.Key() == existing.Key()
  {
    if updated.body.StatefulSet? then updated.(body := updated.body.(selector := existing.body.selector)) else updated
  }

  predicate Same(a: Object, b: Object) { a.(status := b.status) == b }

  type Cluster = map<ObjectKey, Object>

  datatype Env = Env(readable: bool, written: bool)

  datatype Result = Created | Updated | Unchanged | CallFailed | Panicked

  datatype Outcome = Outcome(cluster: Cluster, result: Result)

  function Create(cluster: Cluster, placeholder: Object, build: Build, guard: Guard, env: Env): Outcome {
    match Judge(guard, None, placeholder)
    case Panic => Outcome(cluster, Panicked)
    case Ignore => Outcome(cluster, Unchanged)
    case Write =>
      var obj := Mutate(build, placeholder);
      if obj.None? || !env.written then Outcome(cluster, CallFailed)
      else Outcome(cluster[placeholder.Key() := Stored(obj.value, "")], Created)
  }

  function Update(cluster: Cluster, existing: Object, build: Build, guard: Guard, env: Env): Outcome {
    var obj := Mutate(build, existing);
    if obj.None? then Outcome(cluster, CallFailed)
    else match Judge(guard, Some(existing), obj.value)
      case Panic => Outcome(cluster, Panicked)
      case Ignore => Outcome(cluster, Unchanged)
      case Write =>
        var updated := KeepSelector(existing, obj.value);
        if Same(existing, updated) then Outcome(cluster, Unchanged)
        else if !env.written then Outcome(cluster, CallFailed)
        else Outcome(cluster[existing.Key() := Stored(updated, existing.status)], Updated)
  }

  function Apply(cluster: Cluster, placeholder: Object, build: Build, guard: Guard, env: Env): Outcome {
    var key := placeholder.Key();
    if !env.readable then Outcome(cluster, CallFailed)
    else if key !in cluster then Create(cluster, placeholder, build, guard, env)
    else Update(cluster, cluster[key], build, guard, env)
  }

  /** The operator's client. */
  class Client {
    var cluster: Cluster

    constructor (cluster: Cluster)
      ensures this.cluster == cluster
    {
      this.cluster := cluster;
    }

    method CompareMaps(a: map<string, string>, b: map<string, string>) returns (same: bool)
      ensures same == (a == b)
    {
      if |a| != |b| {
        return false;
      }
      var keys := a.Keys;
      while keys != {}
        invariant keys <= a.Keys
        invariant forall k :: k in a && k !in keys ==> k in b && b[k] == a[k]
        decreases |keys|
      {
        var k :| k in keys;
        if k !in b || b[k] != a[k] {
          return false;
        }
        keys := keys - {k};
      }
      assert a.Keys <= b.Keys;
      EqualSizesEqualSets(a.Keys, b.Keys);
      return true;
    }

    method TryProcessNonExistingObject(placeholder: Object, build: Build, guard: Guard, env: Env)
      returns (existed: bool, result: Result)
      modifies this
      ensures existed == (env.readable && placeholder.Key() in old(cluster))
      ensures existed ==> cluster == old(cluster)
      ensures !existed ==> Outcome(cluster, result) == Apply(old(cluster), placeholder, build, guard, env)
    {
      result := Unchanged;
      if !env.readable {
        return false, CallFailed;
      }
      if placeholder.Key() in cluster {
        return true, Unchanged;
      }
      match Judge(guard, None, placeholder)
      case Panic =>
        return false, Panicked;
      case Ignore =>
        return false, Unchanged;
      case Write =>
        var obj := Mutate(build, placeholder);
        if obj.None? || !env.written {
          return false, CallFailed;
        }
        cluster := cluster[placeholder.Key() := Stored(obj.value, "")];
        return false, Created;
    }

    method CreateOrUpdateOrMaybeIgnore(placeholder: Object, build: Build, guard: Guard, env: Env)
      returns (result: Result)
      requires WellKeyed(cluster)
      modifies this
      ensures Outcome(cluster, result) == Apply(old(cluster), placeholder, build, guard, env)
    {
      var existed;
      existed, result := TryProcessNonExistingObject(placeholder, build, guard, env);
      if !existed {
        return;
      }
      var existing := cluster[placeholder.Key()];
      var mutated := Mutate(build, existing);
      if mutated.None? {
        return CallFailed;
      }
      var obj := mutated.value;
      match Judge(guard, Some(existing), obj) {
        case Panic => return Panicked;
        case Ignore => return Unchanged;
        case Write =>
      }
      if obj.body.StatefulSet? {
        var same := CompareMaps(obj.body.selector, existing.body.selector);
        if !same {
          obj := obj.(body := obj.body.(selector := existing.body.selector));
        }
      }
      if Same(existing, obj) {
        return Unchanged;
      }
      if !env.written {
        return CallFailed;
      }
      cluster := cluster[placeholder.Key() := Stored(obj, existing.status)];
      return Updated;
    }
  }

  lemma {:induction false} EqualSizesEqualSets(a: set<string>, b: set<string>)
    requires a <= b && |a| == |b|
    ensures a == b
    decreases |a|
  {
    if k :| k in b && k !in a {
      assert |b - {k}| == |b| - 1;
      SubsetsAreSmaller(a, b - {k});
    }
  }

  lemma {:induction false} SubsetsAreSmaller(a: set<string>, b: set<string>)
    requires a <= b
    ensures |a| <= |b|
    decreases |a|
  {
    if k :| k in a {
      SubsetsAreSmaller(a - {k}, b - {k});
    }
  }

  // ----- Runs -----

  /** Every object is stored under its own type, namespace and name. */
  ghost predicate WellKeyed(cluster: Cluster) {
    forall key :: key in cluster ==> cluster[key].Key() == key
  }

  /** A controller applies an object, with whatever builder and guard. */
  datatype Event = Event(placeholder: Object, build: Build, guard: Guard, env: Env)

  function Step(cluster: Cluster, e: Event): Cluster { Apply(cluster, e.placeholder, e.build, e.guard, e.env).cluster }

  function Run(cluster: Cluster, events: seq<Event>): Cluster
    decreases |events|
  {
    if events == [] then cluster else Step(Run(cluster, events[..|events| - 1]), events[|events| - 1])
  }

  /** One application touches no other object, and never moves or removes one. */
  lemma ApplyIsLocal(cluster: Cluster, e: Event, key: ObjectKey)
    requires WellKeyed(cluster)
    ensures WellKeyed(Step(cluster, e))
    ensures key in cluster ==> key in Step(cluster, e)
    ensures key != e.placeholder.Key() ==>
              && (key in Step(cluster, e) <==> key in cluster)
              && (key in cluster ==> Step(cluster, e)[key] == cluster[key])
  {
  }

  lemma SelectorStays(cluster: Cluster, e: Event, key: ObjectKey)
    requires WellKeyed(cluster) && key in cluster && key.kind.StatefulSetKind?
    ensures key in Step(cluster, e)
    ensures Step(cluster, e)[key].body.StatefulSet? && cluster[key].body.StatefulSet?
    ensures Step(cluster, e)[key].body.selector == cluster[key].body.selector
  {
  }

  /** Write guards, selectors: over any run, whatever the builders ask for, an existing StatefulSet
      keeps its selector, and every object its type, name and namespace. */
  lemma {:induction false} SelectorsNeverChange(cluster: Cluster, events: seq<Event>, key: ObjectKey)
    requires WellKeyed(cluster) && key in cluster
    ensures var after := Run(cluster, events);
            && WellKeyed(after) && key in after
            && (key.kind.StatefulSetKind? ==> after[key].body.StatefulSet? && cluster[key].body.StatefulSet?
                                              && after[key].body.selector == cluster[key].body.selector)
    decreases |events|
  {
    if events != [] {
      var before, e := Run(cluster, events[..|events| - 1]), events[|events| - 1];
      SelectorsNeverChange(cluster, events[..|events| - 1], key);
      ApplyIsLocal(before, e, key);
      if key.kind.StatefulSetKind? { SelectorStays(before, e, key); }
    } else {
      assert cluster[key].Key() == key;
    }
  }

  /** The guard of an owner of StatefulSets, paused or not. */
  predicate OwnersGuard(guard: Guard, pause: bool) {
    || guard == StorageGuard(pause) || guard == StorageNodeSetGuard(pause)
    || guard == DatabaseGuard(pause) || guard == DatabaseNodeSetGuard(pause)
  }

  /** The object is one the guard protects: scaled to zero under a paused owner, or a Secret with
      data under a Database, or a Job already made. */
  predicate Protected(obj: Object, guard: Guard) {
    || (obj.body.StatefulSet? && obj.body.replicas == 0 && OwnersGuard(guard, true))
    || (obj.body.Secret? && (obj.body.data != map[] || obj.body.stringData != map[]) && guard.DatabaseGuard?)
    || (obj.body.Job? && guard.JobGuard?)
  }

  lemma ProtectedStays(cluster: Cluster, e: Event, key: ObjectKey)
    requires WellKeyed(cluster) && key in cluster
    requires e.placeholder.Key() == key ==> Protected(cluster[key], e.guard)
    ensures key in Step(cluster, e) && Step(cluster, e)[key] == cluster[key]
  {
    if e.placeholder.Key() != key {
      ApplyIsLocal(cluster, e, key);
    } else {
      var obj := Mutate(e.build, cluster[key]);
      if obj.Some? { assert obj.value.Key() == key; }
    }
  }

  /** Write guards, contents: over any run in which every application of an object comes from an owner
      whose guard protects it, the object is not rewritten at all, whatever the builders make. */
  lemma {:induction false} ProtectedNeverRewritten(cluster: Cluster, events: seq<Event>, key: ObjectKey)
    requires WellKeyed(cluster) && key in cluster
    requires forall i :: 0 <= i < |events| && events[i].placeholder.Key() == key ==>
               Protected(cluster[key], events[i].guard)
    ensures WellKeyed(Run(cluster, events))
    ensures key in Run(cluster, events) && Run(cluster, events)[key] == cluster[key]
    decreases |events|
  {
    if events != [] {
      var before, e := Run(cluster, events[..|events| - 1]), events[|events| - 1];
      ProtectedNeverRewritten(cluster, events[..|events| - 1], key);
      ApplyIsLocal(before, e, key);
      ProtectedStays(before, e, key);
    }
  }

  // ----- What the guards let through -----

  /** What a build makes of an object, if it neither fails nor moves the object. */
  predicate Builds(build: Build, from: Object, to: Object) { build(from) == Some(to) && to.Key() == from.Key() }

  /** What is asked of the API server for an object that exists: the labels and the body built, except that
      a StatefulSet keeps its selector. */
  predicate AskedFor(existing: Object, built: Object, asked: Object) {
    && asked.namespace == built.namespace && asked.name == built.name && asked.labels == built.labels
    && asked.status == built.status
    && match built.body
       case StatefulSet(_, replicas, template) =>
         existing.body.StatefulSet? && asked.body == StatefulSet(existing.body.selector, replicas, template)
       case _ => asked.body == built.body
  }

  /** What the server then holds: the plain strings of a Secret as data, and the status it had. */
  predicate HeldFor(existing: Object, asked: Object, held: Object) {
    && held.namespace == asked.namespace && held.name == asked.name && held.labels == asked.labels
    && held.status == existing.status
    && match asked.body
       case Secret(stringData, data) =>
         && held.body.Secret? && held.body.stringData == map[]
         && held.body.data.Keys == data.Keys + stringData.Keys
         && forall k :: k in held.body.data ==>
              held.body.data[k] == if k in stringData then stringData[k] else data[k]
       case _ => held.body == asked.body
  }

  /** Write guards, the other half: an existing object that the guard does not protect becomes what is built.
      It is written exactly if that differs, the status apart, from what is there; and the answer says so. */
  lemma UnprotectedIsReplaced(cluster: Cluster, placeholder: Object, build: Build, guard: Guard, env: Env,
                              built: Object, asked: Object)
    requires WellKeyed(cluster) && placeholder.Key() in cluster && !Protected(cluster[placeholder.Key()], guard)
    requires Builds(build, cluster[placeholder.Key()], built) && AskedFor(cluster[placeholder.Key()], built, asked)
    ensures var key := placeholder.Key();
            var existing, o := cluster[key], Apply(cluster, placeholder, build, guard, env);
            if !env.readable then o == Outcome(cluster, CallFailed)
            else if asked.labels == existing.labels && asked.body == existing.body then o == Outcome(cluster, Unchanged)
            else if !env.written then o == Outcome(cluster, CallFailed)
            else o.result.Updated? && key in o.cluster && HeldFor(existing, asked, o.cluster[key])
                 && o.cluster == cluster[key := o.cluster[key]]
  {
    var existing := cluster[placeholder.Key()];
    assert existing.Key() == placeholder.Key();
    assert asked == KeepSelector(existing, built);
  }

  /** A missing object is created as built, unless a paused DatabaseNodeSet is to create its StatefulSet. */
  lemma MissingIsCreated(cluster: Cluster, placeholder: Object, build: Build, guard: Guard, env: Env, built: Object)
    requires placeholder.Key() !in cluster && Builds(build, placeholder, built)
    requires !(guard == DatabaseNodeSetGuard(true) && placeholder.body.StatefulSet?)
    ensures var key, o := placeholder.Key(), Apply(cluster, placeholder, build, guard, env);
            if env.readable && env.written
            then o.result.Created? && key in o.cluster && HeldFor(built.(status := ""), built, o.cluster[key])
                 && o.cluster == cluster[key := o.cluster[key]]
            else o == Outcome(cluster, CallFailed)
  {
  }

  /** A build that fails, or moves the object, is never written. */
  lemma FailedBuildIsNotWritten(cluster: Cluster, placeholder: Object, build: Build, guard: Guard, env: Env)
    requires var from := if placeholder.Key() in cluster then cluster[placeholder.Key()] else placeholder;
             build(from).None? || build(from).value.Key() != from.Key()
    ensures Apply(cluster, placeholder, build, guard, env).cluster == cluster
  {
  }

  // ----- The builders whose objects the guards are for -----

  const ENCRYPTION_KEY := "key"

  /** Every build of the encryption Secret draws a fresh key. */
  function BuildEncryptionSecret(labels: map<string, string>, drawn: string): Build {
    (obj: Object) =>
      if !obj.body.Secret? then None
      else Some(obj.(labels := labels, body := obj.body.(stringData := map[ENCRYPTION_KEY := drawn])))
  }

  /** The StatefulSet of a cluster: no replicas while paused, selected by its own name. */
  function BuildStatefulSet(name: string, labels: map<string, string>, nodes: int, pause: bool,
                            template: string): Build {
    (obj: Object) =>
      if !obj.body.StatefulSet? then None
      else Some(obj.(name := if obj.name == "" then name else obj.name, labels := labels,
                     body := StatefulSet(map["ydb.tech/statefulset-name" := name],
                                         if pause then 0 else nodes, template)))
  }

  /** A generated key stands: the Secret is created with the key first drawn, and no later
      application by a Database replaces it, whatever happens to other objects in between. */
  lemma GeneratedKeyStands(cluster: Cluster, placeholder: Object, labels: map<string, string>, drawn: string,
                           guard: Guard, events: seq<Event>)
    requires WellKeyed(cluster) && placeholder.Key() !in cluster && guard.DatabaseGuard?
    requires placeholder.body == Secret(map[], map[])
    requires forall i :: 0 <= i < |events| && events[i].placeholder.Key() == placeholder.Key() ==>
               events[i].guard.DatabaseGuard?
    ensures var created := Apply(cluster, placeholder, BuildEncryptionSecret(labels, drawn), guard, Env(true, true));
            && created.result.Created?
            && placeholder.Key() in Run(created.cluster, events)
            && Run(created.cluster, events)[placeholder.Key()].body == Secret(map[], map[ENCRYPTION_KEY := drawn])
  {
    var build := BuildEncryptionSecret(labels, drawn);
    var created := Apply(cluster, placeholder, build, guard, Env(true, true));
    var built := placeholder.(labels := labels, body := Secret(map[ENCRYPTION_KEY := drawn], map[]));
    assert build(placeholder) == Some(built) && built.Key() == placeholder.Key();
    assert created.cluster == cluster[placeholder.Key() := Stored(built, "")];
    var data := map[] + map[ENCRYPTION_KEY := drawn];
    assert ENCRYPTION_KEY in data && data == map[ENCRYPTION_KEY := drawn];
    ProtectedNeverRewritten(created.cluster, events, placeholder.Key());
  }

  /** What an application of the builder above leaves, whoever owns the StatefulSet: nothing new if it is
      at zero under a paused owner, otherwise the template and the replicas asked for, under the old selector. */
  lemma StatefulSetApplied(cluster: Cluster, placeholder: Object, labels: map<string, string>, nodes: int,
                           pause: bool, template: string, guard: Guard)
    requires WellKeyed(cluster) && placeholder.Key() in cluster && placeholder.name != ""
    requires cluster[placeholder.Key()].body.StatefulSet? && OwnersGuard(guard, pause)
    ensures var key := placeholder.Key();
            var after := Apply(cluster, placeholder, BuildStatefulSet(key.name, labels, nodes, pause, template),
                               guard, Env(true, true)).cluster;
            && WellKeyed(after) && key in after
            && after[key].body == if pause && cluster[key].body.replicas == 0 then cluster[key].body
                                  else StatefulSet(cluster[key].body.selector, if pause then 0 else nodes, template)
  {
    var key := placeholder.Key();
    var existing := cluster[key];
    var build := BuildStatefulSet(key.name, labels, nodes, pause, template);
    assert existing.Key() == key;
    var built := existing.(labels := labels,
      body := StatefulSet(map["ydb.tech/statefulset-name" := key.name], if pause then 0 else nodes, template));
    assert build(existing) == Some(built) && built.Key() == key;
    if Protected(existing, guard) {
      ProtectedStays(cluster, Event(placeholder, build, guard, Env(true, true)), key);
    } else {
      var asked := built.(body := built.body.(selector := existing.body.selector));
      UnprotectedIsReplaced(cluster, placeholder, build, guard, Env(true, true), built, asked);
    }
    ApplyIsLocal(cluster, Event(placeholder, build, guard, Env(true, true)), key);
  }

  /** Pausing and resuming, whoever the owner is: its StatefulSet goes to zero replicas when the owner is
      paused, stays exactly so whatever is built while it is, and on resuming gets its replicas back, still
      selecting the pods it selected at first. */
  lemma PauseAndResume(cluster: Cluster, placeholder: Object, labels: map<string, string>, nodes: int,
                       template: string, template': string, paused: Guard, resumed: Guard, events: seq<Event>)
    requires WellKeyed(cluster) && placeholder.Key() in cluster && placeholder.name != ""
    requires cluster[placeholder.Key()].body.StatefulSet?
    requires OwnersGuard(paused, true) && OwnersGuard(resumed, false)
    requires forall i :: 0 <= i < |events| && events[i].placeholder.Key() == placeholder.Key() ==>
               OwnersGuard(events[i].guard, true)
    ensures var key := placeholder.Key();
            var down := Apply(cluster, placeholder, BuildStatefulSet(key.name, labels, nodes, true, template),
                              paused, Env(true, true)).cluster;
            var later := Run(down, events);
            var up := Apply(later, placeholder, BuildStatefulSet(key.name, labels, nodes, false, template'),
                            resumed, Env(true, true)).cluster;
            && key in down && key in later && key in up
            && down[key].body.StatefulSet? && down[key].body.replicas == 0 && later[key] == down[key]
            && up[key].body == StatefulSet(cluster[key].body.selector, nodes, template')
  {
    var key := placeholder.Key();
    var down := Apply(cluster, placeholder, BuildStatefulSet(key.name, labels, nodes, true, template),
                      paused, Env(true, true)).cluster;
    StatefulSetApplied(cluster, placeholder, labels, nodes, true, template, paused);
    ProtectedNeverRewritten(down, events, key);
    StatefulSetApplied(Run(down, events), placeholder, labels, nodes, false, template', resumed);
  }

  /** Applying panics exactly when a paused DatabaseNodeSet is to create its StatefulSet. */
  lemma PanicsExactly(cluster: Cluster, e: Event)
    requires WellKeyed(cluster)
    ensures Apply(cluster, e.placeholder, e.build, e.guard, e.env).result.Panicked? <==>
            && e.env.readable && e.placeholder.Key() !in cluster
            && e.guard == DatabaseNodeSetGuard(true) && e.placeholder.body.StatefulSet?
  {
    if e.placeholder.Key() in cluster {
      var obj := Mutate(e.build, cluster[e.placeholder.Key()]);
      if obj.Some? { assert obj.value.Key() == e.placeholder.Key(); }
    }
  }
}
