/**
 The state of the control plane as its in-memory repositories, worker registry, router and
 workers hold it, and the primitive operations on it.  Worker semantics are those of the
 in-repo worker client: running replaces by instance key, stopping removes.
 */
module Cluster {
  import opened Scheduler
  import opened Diff

  datatype InstanceStatus = Pending | Starting | Running | Stopped | Failed | RepairFailed

  datatype DeploymentStatus =
    QUEUED | BUILDING | BUILT | SCHEDULING | STARTING | RUNNING | FAILED | STOPPED | ROLLED_BACK

  datatype Instance = Instance(
    id: string, key: string, deployment: string, worker: string, container: string, status: InstanceStatus)

  datatype Deployment = Deployment(
    project: string, image: string, digest: string, status: DeploymentStatus,
    count: int, labels: map<string, string>)

  datatype Container = Container(
    worker: string, id: string, key: string, image: string, state: string, labels: map<string, string>)

  /** A backend of the router: an instance, and the worker its URL names. */
  datatype Target = Target(instance: string, worker: string)

  /**
   `byKey` is the instance repository's second index; `containers` are the containers on all
   workers together; `targets` is the router's table of targets per project.
   */
  datatype World = World(
    workers: map<string, Worker>,
    deployments: map<string, Deployment>,
    instances: map<string, Instance>,
    byKey: map<string, string>,
    containers: set<Container>,
    targets: map<string, seq<Target>>)

  // ----- instance repository

  function CreateInstance(w: World, inst: Instance): World {
    w.(instances := w.instances[inst.id := inst], byKey := w.byKey[inst.key := inst.id])
  }

  function UpdateInstance(w: World, inst: Instance): World {
    if inst.id !in w.instances then w
    else w.(instances := w.instances[inst.id := inst],
            byKey := if inst.key != "" then w.byKey[inst.key := inst.id] else w.byKey)
  }

  predicate HasKey(w: World, key: string) {
    key in w.byKey && w.byKey[key] in w.instances
  }

  function ByKey(w: World, key: string): Instance
    requires HasKey(w, key)
  {
    w.instances[w.byKey[key]]
  }

  /** The two indexes of the repository agree, so instance keys are unique. */
  ghost predicate IndexesAgree(w: World) {
    && (forall i :: i in w.instances ==>
          w.instances[i].id == i && w.instances[i].key in w.byKey && w.byKey[w.instances[i].key] == i)
    && (forall k :: k in w.byKey ==> w.byKey[k] in w.instances && w.instances[w.byKey[k]].key == k)
  }

  /** Writing back a record without changing its ID or key keeps the indexes in agreement. */
  lemma {:induction false} UpdateKeepsIndexes(w: World, inst: Instance)
    requires IndexesAgree(w) && inst.id in w.instances && inst.key == w.instances[inst.id].key
    ensures IndexesAgree(UpdateInstance(w, inst))
    ensures UpdateInstance(w, inst).byKey == w.byKey
  {
    assert w.byKey[inst.key] == inst.id;
  }

  // ----- workers

  /** Stopping removes whatever on the worker goes by that name, as instance key or container ID. */
  function StopOn(cs: set<Container>, worker: string, target: string): set<Container> {
    set c | c in cs && !(c.worker == worker && (c.key == target || c.id == target))
  }

  /** Running replaces any container of the same instance key on the worker. */
  function RunOn(cs: set<Container>, added: Container): set<Container> {
    (set c | c in cs && !(c.worker == added.worker && c.key == added.key)) + {added}
  }

  function RunLabels(labels: map<string, string>, key: string, deployment: string): map<string, string> {
    var l := labels[INSTANCE_LABEL := key];
    if deployment != "" then l[DEPLOYMENT_LABEL := deployment] else l
  }

  function NewContainer(worker: string, id: string, key: string, deployment: string, image: string,
                        labels: map<string, string>): Container {
    Container(worker, id, key, image, "running", RunLabels(labels, key, deployment))
  }

  /** A worker's counter moves by `delta` but not below zero. */
  function Counted(x: Worker, delta: int): Worker {
    x.(active := if x.active + delta < 0 then 0 else x.active + delta)
  }

  /** A counter takes every change that leaves it at zero or above, gives it back, and stops at zero otherwise. */
  lemma {:induction false} CountersStopAtZero(x: Worker, delta: int)
    ensures x.active + delta >= 0 ==> Counted(x, delta) == x.(active := x.active + delta)
    ensures x.active + delta < 0 ==> Counted(x, delta) == x.(active := 0)
    ensures x.active >= 0 && x.active + delta >= 0 ==> Counted(Counted(x, delta), -delta) == x
  {
  }

  function UpdateWorkload(w: World, worker: string, delta: int): World {
    if worker !in w.workers then w
    else w.(workers := w.workers[worker := Counted(w.workers[worker], delta)])
  }

  // ----- router

  function IDs(targets: seq<Target>): (r: seq<string>)
    ensures |r| == |targets| && forall i :: 0 <= i < |targets| ==> r[i] == targets[i].instance
  {
    seq(|targets|, i requires 0 <= i < |targets| => targets[i].instance)
  }

  function Without(targets: seq<Target>, instance: string): (r: seq<Target>)
    ensures forall t :: t in r <==> t in targets && t.instance != instance
  {
    if targets == [] then []
    else if targets[0].instance == instance then Without(targets[1..], instance)
    else [targets[0]] + Without(targets[1..], instance)
  }

  /** The targets that stay keep their order, and come as often as before. */
  lemma {:induction false} WithoutKeepsOrder(a: seq<Target>, b: seq<Target>, instance: string)
    ensures Without(a + b, instance) == Without(a, instance) + Without(b, instance)
  {
    if a == [] {
      assert a + b == b;
    } else {
      assert (a + b)[0] == a[0] && (a + b)[1..] == a[1..] + b;
      WithoutFirst(a, instance);
      WithoutFirst(a + b, instance);
      WithoutKeepsOrder(a[1..], b, instance);
      Regroup(FirstKept(a, instance), Without(a[1..], instance), Without(b, instance));
    }
  }

  function FirstKept(a: seq<Target>, instance: string): seq<Target>
    requires a != []
  {
    if a[0].instance == instance then [] else [a[0]]
  }

  lemma {:induction false} WithoutFirst(a: seq<Target>, instance: string)
    requires a != []
    ensures Without(a, instance) == FirstKept(a, instance) + Without(a[1..], instance)
  {
  }

  lemma {:induction false} Regroup(a: seq<Target>, b: seq<Target>, c: seq<Target>)
    ensures a + (b + c) == (a + b) + c
  {
  }

  lemma {:induction false} HasID(targets: seq<Target>, i: string)
    ensures i in IDs(targets) <==> exists t :: t in targets && t.instance == i
  {
    if k :| 0 <= k < |targets| && targets[k].instance == i {
      assert IDs(targets)[k] == i && targets[k] in targets;
    }
  }

  /** Removing a target takes its instance, and no other, off the list, and introduces no duplicates. */
  lemma {:induction false} KeptIDs(targets: seq<Target>, instance: string)
    ensures forall i :: i in IDs(Without(targets, instance)) <==> i in IDs(targets) && i != instance
    ensures NoDuplicates(IDs(targets)) ==> NoDuplicates(IDs(Without(targets, instance)))
  {
    forall i ensures i in IDs(Without(targets, instance)) <==> i in IDs(targets) && i != instance {
      HasID(targets, i);
      HasID(Without(targets, instance), i);
    }
    KeptOnce(targets, instance);
  }

  lemma {:induction false} KeptSubset(targets: seq<Target>, instance: string, i: string)
    requires i in IDs(Without(targets, instance))
    ensures i in IDs(targets)
  {
    HasID(targets, i);
    HasID(Without(targets, instance), i);
  }

  lemma {:induction false} KeptOnce(targets: seq<Target>, instance: string)
    ensures NoDuplicates(IDs(targets)) ==> NoDuplicates(IDs(Without(targets, instance)))
  {
    if targets != [] {
      var first, rest := targets[0], Without(targets[1..], instance);
      KeptOnce(targets[1..], instance);
      forall i | i in IDs(rest) ensures i in IDs(targets[1..]) {
        KeptSubset(targets[1..], instance, i);
      }
      ConsIDs(first.instance, IDs(targets[1..]), IDs(rest));
      FirstID(targets);
      FirstID([first] + rest);
    }
  }

  lemma {:induction false} FirstID(targets: seq<Target>)
    requires targets != []
    ensures IDs(targets) == [targets[0].instance] + IDs(targets[1..])
  {
  }

  lemma {:induction false} ConsIDs(first: string, all: seq<string>, kept: seq<string>)
    requires forall i :: i in kept ==> i in all
    requires NoDuplicates(all) ==> NoDuplicates(kept)
    ensures NoDuplicates([first] + all) ==> NoDuplicates([first] + kept) && NoDuplicates(kept)
  {
    if NoDuplicates([first] + all) {
      assert all == ([first] + all)[1..];
      assert forall k :: 0 <= k < |all| ==> all[k] != ([first] + all)[0];
      assert forall k :: 0 <= k < |kept| ==> kept[k] in all;
    }
  }

  predicate NoDuplicates(s: seq<string>) {
    forall i, j :: 0 <= i < j < |s| ==> s[i] != s[j]
  }

  function RoutesOf(w: World, project: string): seq<Target> {
    if project in w.targets then w.targets[project] else []
  }

  /** The instances routed for a project. */
  function TargetsOf(w: World, project: string): seq<string> {
    IDs(RoutesOf(w, project))
  }

  function RegisterTarget(w: World, project: string, instance: string, worker: string): World {
    w.(targets := w.targets[project := Without(RoutesOf(w, project), instance) + [Target(instance, worker)]])
  }

  function UnregisterTarget(w: World, project: string, instance: string): World {
    w.(targets := w.targets[project := Without(RoutesOf(w, project), instance)])
  }

  lemma {:induction false} RegisterRoutes(w: World, project: string, instance: string, worker: string)
    ensures var v := RegisterTarget(w, project, instance, worker);
            && (forall i :: i in TargetsOf(v, project) <==> i in TargetsOf(w, project) || i == instance)
            && (NoDuplicates(TargetsOf(w, project)) ==> NoDuplicates(TargetsOf(v, project)))
  {
    var kept := Without(RoutesOf(w, project), instance);
    KeptIDs(RoutesOf(w, project), instance);
    assert IDs(kept + [Target(instance, worker)]) == IDs(kept) + [instance];
  }

  lemma {:induction false} UnregisterRoutes(w: World, project: string, instance: string)
    ensures var v := UnregisterTarget(w, project, instance);
            && (forall i :: i in TargetsOf(v, project) <==> i in TargetsOf(w, project) && i != instance)
            && (NoDuplicates(TargetsOf(w, project)) ==> NoDuplicates(TargetsOf(v, project)))
  {
    KeptIDs(RoutesOf(w, project), instance);
  }

  // ----- what the reconciler sees

  function ObservedOf(c: Container): Observed {
    Observed(c.worker, c.id, c.key, Label(c.labels, DEPLOYMENT_LABEL), c.image, c.state, c.labels)
  }

  /** Only containers with no trace of the control plane are unknown. */
  predicate Managed(o: Observed) {
    o.instanceKey != "" || o.deploymentID != "" || INSTANCE_LABEL in o.labels || DEPLOYMENT_LABEL in o.labels
  }

  predicate IsInFlight(s: DeploymentStatus) {
    s == QUEUED || s == BUILDING || s == BUILT || s == SCHEDULING || s == STARTING
  }

  /** Nothing deployed yet: registered workers, all idle, and nothing else. */
  ghost predicate NewCluster(w: World) {
    && w.deployments == map[] && w.instances == map[] && w.byKey == map[] && w.containers == {} && w.targets == map[]
    && "" !in w.workers
    && forall k :: k in w.workers ==> w.workers[k].id == k && w.workers[k].active == 0 <= w.workers[k].capacity
  }
}
