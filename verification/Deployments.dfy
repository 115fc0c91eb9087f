/**
 The deployment service, internal/deployments/service.go: dispatch of instances, scaling,
 stopping and rollback.  The functions say what each operation does to the world, given the
 outcome of every remote call; the class runs the source's loops and is proved equal to them.
 */
module Deployments {
  import opened Wrappers
  import opened Scheduler
  import opened Diff
  import opened Cluster
  import opened Reconcile

  /** What the environment decides for one instance: names, the registry's listing, and how the calls turn out. */
  datatype Order = Order(id: string, key: string, listed: seq<Worker>, dialed: bool, ran: bool, containerID: string)

  datatype Progress = Progress(world: World, ok: bool)

  const DIGEST_LABEL := "nebula.image_digest"
  const SIGNATURE_LABEL := "nebula.signature"

  function SetStatus(w: World, d: string, s: DeploymentStatus): World {
    if d in w.deployments then w.(deployments := w.deployments[d := w.deployments[d].(status := s)]) else w
  }

  function SetCount(w: World, d: string, n: int): World {
    if d in w.deployments then w.(deployments := w.deployments[d := w.deployments[d].(count := n)]) else w
  }

  function StampedLabels(labels: map<string, string>, digest: string, signature: string): map<string, string> {
    var l := if digest != "" then labels[DIGEST_LABEL := digest] else labels;
    if signature != "" then l[SIGNATURE_LABEL := signature] else l
  }

  // ----- placing one instance

  /** Records of the deployment that name worker `k`, whatever their status. */
  function OnWorker(w: World, d: string, k: string): set<string> {
    set i | i in w.instances && w.instances[i].deployment == d && w.instances[i].worker == k
  }

  /** The repository's CountByWorkerForDeployment. */
  function Counts(w: World, d: string): map<string, int> {
    var used := set i | i in w.instances && w.instances[i].deployment == d && w.instances[i].worker != "" :: w.instances[i].worker;
    map k | k in used :: |OnWorker(w, d, k)|
  }

  function NewInstance(d: string, o: Order): Instance {
    Instance(o.id, o.key, d, "", "", Pending)
  }

  function Pick(w: World, d: string, o: Order): Selection
    requires d in w.deployments
  {
    SelectWorker(o.listed, Requirement(d, 1, w.deployments[d].labels), Counts(w, d))
  }

  function StartContainer(w: World, d: string, t: string, o: Order, digest: string, signature: string): World
    requires d in w.deployments
  {
    var dep := w.deployments[d];
    w.(containers := RunOn(w.containers,
         NewContainer(t, o.containerID, o.key, d, dep.image, StampedLabels(dep.labels, digest, signature))))
  }

  function MarkRunning(w: World, d: string, t: string, o: Order): World {
    UpdateInstance(w, NewInstance(d, o).(worker := t, container := o.containerID, status := Running))
  }

  function MarkFailed(w: World, d: string, o: Order): World {
    UpdateInstance(w, NewInstance(d, o).(status := Failed))
  }

  function Route(w: World, d: string, i: string, t: string): World
    requires d in w.deployments
  {
    if w.deployments[d].project != "" then RegisterTarget(w, w.deployments[d].project, i, t) else w
  }

  function Unroute(w: World, d: string, i: string): World
    requires d in w.deployments
  {
    if w.deployments[d].project != "" then UnregisterTarget(w, w.deployments[d].project, i) else w
  }

  /** One instance: create its record, select, dial, run, assign, register, count the workload. */
  function Dispatch(w: World, d: string, digest: string, signature: string, o: Order): Progress
    requires d in w.deployments
  {
    var pending := CreateInstance(w, NewInstance(d, o));
    var s := Pick(pending, d, o);
    if !s.Chosen? || !o.dialed || !o.ran then Progress(MarkFailed(pending, d, o), false)
    else
      var t := s.worker.id;
      var running := MarkRunning(StartContainer(pending, d, t, o, digest, signature), d, t, o);
      Progress(UpdateWorkload(Route(running, d, o.id, t), t, 1), true)
  }

  /** Steps one after another, up to the first that fails. */
  function Series(w: World, step: (World, nat) -> Progress, n: nat): Progress {
    if n == 0 then Progress(w, true) else
      var p := Series(w, step, n - 1);
      if p.ok then step(p.world, n - 1) else p
  }

  /** What every step keeps in the worlds it fits, a fitting series keeps. */
  lemma {:induction false} SeriesKeeps(w: World, step: (World, nat) -> Progress, n: nat,
                                       fits: (World, nat) -> bool, inv: World -> bool)
    requires inv(w) && forall k: nat :: k < n ==> fits(Series(w, step, k).world, k)
    requires forall u, k: nat :: inv(u) && fits(u, k) ==> inv(step(u, k).world)
    ensures inv(Series(w, step, n).world)
  {
    if n > 0 {
      SeriesKeeps(w, step, n - 1, fits, inv);
    }
  }

  /** Once a step has failed nothing more happens. */
  lemma {:induction false} FailureSticks(w: World, step: (World, nat) -> Progress, n: nat, count: nat)
    requires n <= count && (n == count || !Series(w, step, n).ok)
    ensures Series(w, step, n) == Series(w, step, count)
    decreases count
  {
    if n < count {
      FailureSticks(w, step, n, count - 1);
    }
  }

  function Placing(d: string, digest: string, signature: string, orders: nat -> Order): (World, nat) -> Progress {
    (w: World, k: nat) => if d in w.deployments then Dispatch(w, d, digest, signature, orders(k)) else Progress(w, false)
  }

  lemma {:induction false} DispatchKeepsDeployments(w: World, d: string, digest: string, signature: string, o: Order)
    ensures d in w.deployments ==> Dispatch(w, d, digest, signature, o).world.deployments == w.deployments
  {
  }

  lemma {:induction false} PlacingKeepsDeployments(w: World, d: string, digest: string, signature: string,
                                                   orders: nat -> Order, n: nat)
    ensures Series(w, Placing(d, digest, signature, orders), n).world.deployments == w.deployments
  {
    var step := Placing(d, digest, signature, orders);
    var any, inv := (u: World, k: nat) => true, (u: World) => u.deployments == w.deployments;
    forall u, k: nat | inv(u) && any(u, k) ensures inv(step(u, k).world) {
      DispatchKeepsDeployments(u, d, digest, signature, orders(k));
    }
    SeriesKeeps(w, step, n, any, inv);
  }

  /** Up to `n` instances, stopping at the first failure. */
  function DispatchMany(w: World, d: string, digest: string, signature: string, orders: nat -> Order,
                        n: nat): (p: Progress)
    requires d in w.deployments
    ensures p.world.deployments == w.deployments
  {
    PlacingKeepsDeployments(w, d, digest, signature, orders, n);
    Series(w, Placing(d, digest, signature, orders), n)
  }

  /** From SCHEDULING to RUNNING or FAILED. */
  function ScheduleAndDispatch(w: World, d: string, signature: string, orders: nat -> Order): (p: Progress)
    requires d in w.deployments
    ensures p.world.deployments.Keys == w.deployments.Keys
  {
    var starting := SetStatus(SetStatus(w, d, SCHEDULING), d, STARTING);
    var p := DispatchMany(starting, d, w.deployments[d].digest, signature, orders, Want(w, d));
    Progress(SetStatus(p.world, d, if p.ok then RUNNING else FAILED), p.ok)
  }

  // ----- creating a deployment

  /** How the build phase turns out, for a deployment from source or from an image. */
  datatype Build =
    | BuildFailed
    | PushFailed
    | BuiltAs(image: string, digest: string)
    | RegistryDown
    | NoDigest
    | Resolved(digest: string)

  function CreateDeployment(w: World, d: string, dep: Deployment): World {
    w.(deployments := w.deployments[d := dep.(status := QUEUED)])
  }

  function SetImage(w: World, d: string, image: string, digest: string): World {
    if d in w.deployments then w.(deployments := w.deployments[d := w.deployments[d].(image := image, digest := digest)]) else w
  }

  function BuildPhase(w: World, d: string, b: Build): (p: Progress)
    requires d in w.deployments
    ensures d in p.world.deployments
  {
    match b
    case BuildFailed => Progress(SetStatus(SetStatus(w, d, BUILDING), d, FAILED), false)
    case PushFailed => Progress(SetStatus(SetStatus(w, d, BUILDING), d, FAILED), false)
    case BuiltAs(image, digest) => Progress(SetStatus(SetImage(SetStatus(w, d, BUILDING), d, image, digest), d, BUILT), true)
    case RegistryDown => Progress(SetStatus(w, d, FAILED), false)
    case NoDigest => Progress(w, true)
    case Resolved(digest) => Progress(SetImage(w, d, w.deployments[d].image, digest), true)
  }

  function Create(w: World, d: string, dep: Deployment, b: Build, signature: string, orders: nat -> Order): Progress {
    var p := BuildPhase(CreateDeployment(w, d, dep), d, b);
    if p.ok then ScheduleAndDispatch(p.world, d, signature, orders) else p
  }

  // ----- stopping

  predicate IsLive(s: InstanceStatus) {
    s != Stopped && s != Failed
  }

  function StopOnWorker(w: World, inst: Instance, stopped: bool): World {
    if inst.worker != "" && inst.worker in w.workers && stopped
    then w.(containers := StopOn(w.containers, inst.worker, inst.key)) else w
  }

  /** One instance of a stopped or superseded deployment. */
  function StopInstance(w: World, d: string, i: string, stopped: bool): World
    requires d in w.deployments
  {
    if i !in w.instances then w else
      var inst := w.instances[i];
      Unroute(UpdateInstance(StopOnWorker(w, inst, stopped), inst.(status := Stopped)), d, i)
  }

  function StopMany(w: World, d: string, order: seq<string>, stopped: nat -> bool, n: nat): (v: World)
    requires d in w.deployments && n <= |order|
    ensures v.deployments == w.deployments
  {
    if n == 0 then w else StopInstance(StopMany(w, d, order, stopped, n - 1), d, order[n - 1], stopped(n - 1))
  }

  /** Stops every instance of the deployment, in the order given. */
  function StopDeployment(w: World, d: string, order: seq<string>, stopped: nat -> bool): World {
    if d !in w.deployments then w
    else SetStatus(StopMany(w, d, order, stopped, |order|), d, STOPPED)
  }

  // ----- scaling

  /** One instance scaled away: unregister, stop, give the slot back, mark stopped. */
  function Retire(w: World, d: string, i: string, stopped: bool): World
    requires d in w.deployments
  {
    if i !in w.instances then w else
      var inst := w.instances[i];
      var freed := StopOnWorker(Unroute(w, d, i), inst, stopped);
      var counted := if inst.worker != "" then UpdateWorkload(freed, inst.worker, -1) else freed;
      UpdateInstance(counted, inst.(status := Stopped))
  }

  function RetireMany(w: World, d: string, victims: seq<string>, stopped: nat -> bool, n: nat): (v: World)
    requires d in w.deployments && n <= |victims|
    ensures v.deployments == w.deployments
  {
    if n == 0 then w else Retire(RetireMany(w, d, victims, stopped, n - 1), d, victims[n - 1], stopped(n - 1))
  }

  /** Scales deployment `d`, whose live instances are listed in `active`, to `target` replicas. */
  function Scale(w: World, d: string, target: int, active: seq<string>, orders: nat -> Order,
                 stopped: nat -> bool): Progress {
    if target <= 0 || d !in w.deployments || w.deployments[d].status != RUNNING then Progress(w, false)
    else if target >= |active| then
      var p := DispatchMany(w, d, w.deployments[d].digest, "", orders, target - |active|);
      if p.ok then Progress(SetCount(p.world, d, target), true) else p
    else
      var v := RetireMany(w, d, active[target..], stopped, |active| - target);
      Progress(SetCount(v, d, target), true)
  }

  // ----- rollback

  datatype Release = Release(deployment: string, image: string, digest: string, signature: string)

  /** A release other than the current one, with a recorded digest, whose deployment is not known to have failed. */
  predicate KnownGood(w: World, d: string, r: Release) {
    r.deployment != d && r.digest != ""
    && !(r.deployment != "" && r.deployment in w.deployments && w.deployments[r.deployment].status == FAILED)
  }

  /** The first known-good release, or none. */
  function PreviousRelease(w: World, d: string, releases: seq<Release>): (r: Option<Release>)
    ensures r.Some? ==> r.value in releases && KnownGood(w, d, r.value)
    ensures r.None? ==> forall x :: x in releases ==> !KnownGood(w, d, x)
  {
    if releases == [] then None
    else if KnownGood(w, d, releases[0]) then Some(releases[0])
    else PreviousRelease(w, d, releases[1..])
  }

  function RollbackRecord(w: World, d: string, r: Release): Deployment
    requires d in w.deployments
  {
    Deployment(w.deployments[d].project, r.image, r.digest, QUEUED, Want(w, d), w.deployments[d].labels)
  }

  /** Deploys the previous release as `successor`, then stops the old deployment's instances. */
  function Rollback(w: World, d: string, successor: string, releases: seq<Release>, orders: nat -> Order,
                    order: seq<string>, stopped: nat -> bool): Progress
  {
    if d !in w.deployments || w.deployments[d].status == ROLLED_BACK then Progress(w, false)
    else
      var r := PreviousRelease(w, d, releases);
      if r.None? then Progress(w, false)
      else
        var p := ScheduleAndDispatch(CreateDeployment(w, successor, RollbackRecord(w, d, r.value)), successor, r.value.signature, orders);
        if !p.ok then p
        else Progress(SetStatus(StopMany(p.world, d, order, stopped, |order|), d, ROLLED_BACK), true)
  }

  // ----- the service

  class Service {
    var world: World

    constructor (w: World)
      ensures world == w
    {
      world := w;
    }

    method DispatchInstance(d: string, digest: string, signature: string, o: Order) returns (ok: bool)
      requires d in world.deployments
      modifies this
      ensures var p := Dispatch(old(world), d, digest, signature, o); world == p.world && ok == p.ok
    {
      world := CreateInstance(world, NewInstance(d, o));
      var s := Pick(world, d, o);
      if !s.Chosen? {
        world := MarkFailed(world, d, o);
        return false;
      }
      if !o.dialed {
        world := MarkFailed(world, d, o);
        return false;
      }
      if !o.ran {
        world := MarkFailed(world, d, o);
        return false;
      }
      world := StartContainer(world, d, s.worker.id, o, digest, signature);
      world := MarkRunning(world, d, s.worker.id, o);
      world := Route(world, d, o.id, s.worker.id);
      world := UpdateWorkload(world, s.worker.id, 1);
      return true;
    }

    method DispatchInstances(d: string, digest: string, signature: string, orders: nat -> Order,
                             count: nat) returns (ok: bool)
      requires d in world.deployments
      modifies this
      ensures var p := DispatchMany(old(world), d, digest, signature, orders, count); world == p.world && ok == p.ok
    {
      ok := true;
      var n := 0;
      ghost var start := world;
      while n < count && ok
        invariant 0 <= n <= count && d in world.deployments
        invariant Progress(world, ok) == Series(start, Placing(d, digest, signature, orders), n)
      {
        ok := DispatchInstance(d, digest, signature, orders(n));
        n := n + 1;
        PlacingKeepsDeployments(start, d, digest, signature, orders, n);
      }
      FailureSticks(start, Placing(d, digest, signature, orders), n, count);
    }

    method CreateAndDeploy(d: string, dep: Deployment, b: Build, signature: string,
                           orders: nat -> Order) returns (ok: bool)
      modifies this
      ensures var p := Create(old(world), d, dep, b, signature, orders); world == p.world && ok == p.ok
    {
      world := CreateDeployment(world, d, dep);
      var p := BuildPhase(world, d, b);
      world := p.world;
      if !p.ok {
        return false;
      }
      ok := RunPipeline(d, signature, orders);
    }

    method RunPipeline(d: string, signature: string, orders: nat -> Order) returns (ok: bool)
      requires d in world.deployments
      modifies this
      ensures var p := ScheduleAndDispatch(old(world), d, signature, orders); world == p.world && ok == p.ok
    {
      var dep, count := world.deployments[d], Want(world, d);
      world := SetStatus(world, d, SCHEDULING);
      world := SetStatus(world, d, STARTING);
      ok := DispatchInstances(d, dep.digest, signature, orders, count);
      world := SetStatus(world, d, if ok then RUNNING else FAILED);
    }

    method StopInstances(d: string, order: seq<string>, stopped: nat -> bool)
      requires d in world.deployments
      modifies this
      ensures world == StopMany(old(world), d, order, stopped, |order|)
    {
      ghost var start := world;
      for n := 0 to |order|
        invariant d in world.deployments && world == StopMany(start, d, order, stopped, n)
      {
        world := StopInstance(world, d, order[n], stopped(n));
      }
    }

    method Stop(d: string, order: seq<string>, stopped: nat -> bool)
      modifies this
      ensures world == StopDeployment(old(world), d, order, stopped)
    {
      if d in world.deployments {
        StopInstances(d, order, stopped);
        world := SetStatus(world, d, STOPPED);
      }
    }

    method ScaleDeployment(d: string, target: int, active: seq<string>, orders: nat -> Order,
                           stopped: nat -> bool) returns (ok: bool)
      modifies this
      ensures var p := Scale(old(world), d, target, active, orders, stopped); world == p.world && ok == p.ok
    {
      if target <= 0 || d !in world.deployments || world.deployments[d].status != RUNNING {
        return false;
      }
      if target > |active| {
        ok := DispatchInstances(d, world.deployments[d].digest, "", orders, target - |active|);
        if !ok {
          return false;
        }
      } else if target < |active| {
        var victims := active[target..];
        ghost var start := world;
        for n := 0 to |victims|
          invariant d in world.deployments && world == RetireMany(start, d, victims, stopped, n)
        {
          world := Retire(world, d, victims[n], stopped(n));
        }
      }
      world := SetCount(world, d, target);
      return true;
    }

    method FindRelease(d: string, releases: seq<Release>) returns (r: Option<Release>)
      ensures r == PreviousRelease(world, d, releases)
    {
      for n := 0 to |releases|
        invariant PreviousRelease(world, d, releases) == PreviousRelease(world, d, releases[n..])
      {
        if KnownGood(world, d, releases[n]) {
          return Some(releases[n]);
        }
        assert releases[n..][1..] == releases[n + 1..];
      }
      return None;
    }

    method RollbackTo(d: string, successor: string, releases: seq<Release>, orders: nat -> Order,
                      order: seq<string>, stopped: nat -> bool)
      returns (ok: bool)
      modifies this
      ensures var p := Rollback(old(world), d, successor, releases, orders, order, stopped); world == p.world && ok == p.ok
    {
      if d !in world.deployments || world.deployments[d].status == ROLLED_BACK {
        return false;
      }
      var r := FindRelease(d, releases);
      if r.None? {
        return false;
      }
      world := CreateDeployment(world, successor, RollbackRecord(world, d, r.value));
      ok := RunPipeline(successor, r.value.signature, orders);
      if !ok {
        return false;
      }
      StopInstances(d, order, stopped);
      world := SetStatus(world, d, ROLLED_BACK);
    }
  }
}
