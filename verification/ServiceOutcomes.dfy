/**
 What the service's operations leave behind, in the fields of deployments, records and
 containers: how many instances run, which image, digest and signature they carry, which
 instances a scale-down takes, and which release a rollback restores.
 */
module ServiceOutcomes {
  import opened Wrappers
  import opened Scheduler
  import opened Diff
  import opened Cluster
  import opened Reconcile
  import opened Deployments
  import opened Books
  import opened ServiceRuns
  import opened Placement

  // ----- one dispatch

  predicate LabelledFor(c: Container, d: string) {
    "nebula.deployment_id" in c.labels && c.labels["nebula.deployment_id"] == d
  }

  /** The container runs this image and carries this digest and signature, if there are any. */
  predicate StampedFor(c: Container, image: string, digest: string, signature: string) {
    && c.image == image
    && (digest != "" ==> "nebula.image_digest" in c.labels && c.labels["nebula.image_digest"] == digest)
    && (signature != "" ==> "nebula.signature" in c.labels && c.labels["nebula.signature"] == signature)
  }

  ghost predicate AllStamped(w: World, d: string, image: string, digest: string, signature: string) {
    forall c :: c in w.containers && LabelledFor(c, d) ==> StampedFor(c, image, digest, signature)
  }

  predicate CarriesLabels(c: Container, labels: map<string, string>) {
    forall l :: l in labels && l !in {"nebula.instance_id", "nebula.deployment_id", "nebula.image_digest", "nebula.signature"} ==>
      l in c.labels && c.labels[l] == labels[l]
  }

  lemma {:induction false} NewContainerFields(t: string, d: string, o: Order, dep: Deployment, digest: string, signature: string)
    requires d != ""
    ensures var c := NewContainer(t, o.containerID, o.key, d, dep.image, StampedLabels(dep.labels, digest, signature));
            && c.worker == t && c.id == o.containerID && c.key == o.key && c.state == "running"
            && "nebula.instance_id" in c.labels && c.labels["nebula.instance_id"] == o.key
            && LabelledFor(c, d) && StampedFor(c, dep.image, digest, signature) && CarriesLabels(c, dep.labels)
  {
  }

  /** A container of the deployment as a dispatch starts it. */
  predicate StartedFor(c: Container, inst: Instance, d: string, dep: Deployment, digest: string, signature: string) {
    && c.worker == inst.worker && c.id == inst.container && c.key == inst.key && c.state == "running"
    && LabelledFor(c, d) && StampedFor(c, dep.image, digest, signature) && CarriesLabels(c, dep.labels)
  }

  /** A dispatch that succeeds adds one RUNNING record and leaves the others. */
  lemma {:induction false} DispatchRecords(w: World, d: string, digest: string, signature: string, o: Order)
    requires d in w.deployments && Sane(w) && OrderFits(w, o) && Dispatch(w, d, digest, signature, o).ok
    ensures var v := Dispatch(w, d, digest, signature, o).world;
            && v.deployments == w.deployments && o.id in v.instances && v.instances == w.instances[o.id := v.instances[o.id]]
            && v.instances[o.id] == Instance(o.id, o.key, d, TargetOf(w, d, o), o.containerID, Running)
  {
    DispatchDoes(w, d, digest, signature, o);
  }

  /** And a running container with the deployment's image and labels, digest and signature, where the record says. */
  lemma {:induction false} DispatchStarts(w: World, d: string, digest: string, signature: string, o: Order)
    requires d in w.deployments && d != "" && Sane(w) && OrderFits(w, o) && Dispatch(w, d, digest, signature, o).ok
    ensures var v := Dispatch(w, d, digest, signature, o).world;
            o.id in v.instances && exists c :: c in v.containers && StartedFor(c, v.instances[o.id], d, w.deployments[d], digest, signature)
  {
    var v, t, dep := Dispatch(w, d, digest, signature, o).world, TargetOf(w, d, o), w.deployments[d];
    DispatchRecords(w, d, digest, signature, o);
    DispatchContainers(w, d, digest, signature, o);
    NewContainerFields(t, d, o, dep, digest, signature);
    var c := NewContainer(t, o.containerID, o.key, d, dep.image, StampedLabels(dep.labels, digest, signature));
    assert c in v.containers && StartedFor(c, v.instances[o.id], d, dep, digest, signature);
  }

  lemma {:induction false} DispatchContainers(w: World, d: string, digest: string, signature: string, o: Order)
    requires d in w.deployments
    ensures var p, dep := Dispatch(w, d, digest, signature, o), w.deployments[d];
            p.world.containers
            == if p.ok then RunOn(w.containers, NewContainer(TargetOf(w, d, o), o.containerID, o.key, d, dep.image,
                                                             StampedLabels(dep.labels, digest, signature)))
               else w.containers
  {
  }

  /** A dispatch that fails: a FAILED record on no worker, and no container, counter or route changed. */
  lemma {:induction false} DispatchFails(w: World, d: string, digest: string, signature: string, o: Order)
    requires d in w.deployments && Sane(w) && OrderFits(w, o) && !Dispatch(w, d, digest, signature, o).ok
    ensures var v := Dispatch(w, d, digest, signature, o).world;
            && v.deployments == w.deployments && v.workers == w.workers && v.targets == w.targets && v.containers == w.containers
            && v.instances == w.instances[o.id := Instance(o.id, o.key, d, "", "", Failed)]
  {
    DispatchDoes(w, d, digest, signature, o);
    DispatchContainers(w, d, digest, signature, o);
  }

  /** It succeeds exactly if some worker meets the rules, answers, and runs the container. */
  lemma {:induction false} DispatchSucceedsExactly(w: World, d: string, digest: string, signature: string, o: Order)
    requires d in w.deployments && ListsWorkers(w, o.listed) && Sane(w)
    ensures Dispatch(w, d, digest, signature, o).ok <==>
              o.dialed && o.ran && exists k :: k in w.workers && MeetsRules(w.workers[k], 1, w.deployments[d].labels)
  {
    var pending := CreateInstance(w, NewInstance(d, o));
    var req := Requirement(d, 1, w.deployments[d].labels);
    SelectionKeepsTheRules(o.listed, req, Counts(pending, d));
    if x :| x in o.listed && MeetsRules(x, 1, w.deployments[d].labels) {
      assert x.id in w.workers && MeetsRules(w.workers[x.id], 1, w.deployments[d].labels);
    }
    if k :| k in w.workers && MeetsRules(w.workers[k], 1, w.deployments[d].labels) {
      assert w.workers[k].id == k && w.workers[k] in o.listed;
    }
  }

  // ----- a series of dispatches

  /** The records of `w` are all there as they were. */
  ghost predicate OldRecordsKept(w: World, v: World) {
    forall i :: i in w.instances ==> i in v.instances && v.instances[i] == w.instances[i]
  }

  lemma {:induction false} RunningAfter(w: World, v: World, inst: Instance, d: string)
    requires OneRecord(w, v, inst) && inst.id !in w.instances
    ensures |RunningOf(v, d)| == |RunningOf(w, d)| + if inst.deployment == d && inst.status == Running then 1 else 0
  {
    DifferAt(RunningOf(w, d), RunningOf(v, d), inst.id);
  }

  ghost predicate Progressing(w: World, u: World, d: string, digest: string, signature: string) {
    && d in u.deployments && u.deployments == w.deployments && Agreed(u) && OldRecordsKept(w, u)
    && AllStamped(u, d, w.deployments[d].image, digest, signature)
  }

  lemma {:induction false} DispatchProgresses(w: World, u: World, d: string, digest: string, signature: string, o: Order)
    requires d in w.deployments && d != "" && Progressing(w, u, d, digest, signature) && OrderFits(u, o)
    ensures var p := Dispatch(u, d, digest, signature, o);
            && Progressing(w, p.world, d, digest, signature)
            && (p.ok ==> |RunningOf(p.world, d)| == |RunningOf(u, d)| + 1)
  {
    var p := Dispatch(u, d, digest, signature, o);
    DispatchStepAgreed(u, d, digest, signature, o);
    DispatchDoes(u, d, digest, signature, o);
    RunningAfter(u, p.world, Dispatched(d, o, TargetOf(u, d, o), p.ok), d);
    DispatchStamps(u, d, digest, signature, o);
  }

  lemma {:induction false} DispatchStamps(u: World, d: string, digest: string, signature: string, o: Order)
    requires d in u.deployments && d != "" && AllStamped(u, d, u.deployments[d].image, digest, signature)
    ensures AllStamped(Dispatch(u, d, digest, signature, o).world, d, u.deployments[d].image, digest, signature)
  {
    DispatchContainers(u, d, digest, signature, o);
    NewContainerFields(TargetOf(u, d, o), d, o, u.deployments[d], digest, signature);
  }

  ghost function ProgressTest(w: World, d: string, digest: string, signature: string): World -> bool
    requires d in w.deployments
  {
    (u: World) => Progressing(w, u, d, digest, signature)
  }

  lemma {:induction false} ManyProgress(w: World, d: string, digest: string, signature: string, orders: nat -> Order, n: nat)
    requires d in w.deployments && d != "" && Agreed(w) && AllStamped(w, d, w.deployments[d].image, digest, signature)
    requires OrdersFit(w, d, digest, signature, orders, n)
    ensures var p := DispatchMany(w, d, digest, signature, orders, n);
            && Progressing(w, p.world, d, digest, signature)
            && (p.ok ==> |RunningOf(p.world, d)| == |RunningOf(w, d)| + n)
  {
    var step, inv := Placing(d, digest, signature, orders), ProgressTest(w, d, digest, signature);
    var size := (u: World) => |RunningOf(u, d)|;
    forall u, k: nat | inv(u) && Fitting(orders)(u, k)
      ensures inv(step(u, k).world) && (step(u, k).ok ==> size(step(u, k).world) == size(u) + 1)
    {
      DispatchProgresses(w, u, d, digest, signature, orders(k));
    }
    SeriesAdds(w, step, n, Fitting(orders), inv, size);
  }

  // ----- the pipeline

  /** Nothing of the deployment exists yet. */
  ghost predicate Untouched(w: World, d: string) {
    (forall i :: i in w.instances ==> w.instances[i].deployment != d) && forall c :: c in w.containers ==> !LabelledFor(c, d)
  }

  function RecordedOrOne(count: int): nat {
    if count > 0 then count else 1
  }

  lemma {:induction false} PipelineOutcome(w: World, d: string, signature: string, orders: nat -> Order)
    requires PipelineFits(w, d, signature, orders) && Agreed(w) && d != "" && Untouched(w, d)
    ensures var p, dep := ScheduleAndDispatch(w, d, signature, orders), w.deployments[d];
            && p.world.deployments == w.deployments[d := dep.(status := if p.ok then RUNNING else FAILED)]
            && OldRecordsKept(w, p.world) && Agreed(p.world)
            && AllStamped(p.world, d, dep.image, dep.digest, signature)
            && (p.ok ==> |RunningOf(p.world, d)| == RecordedOrOne(dep.count))
  {
    var starting := SetStatus(SetStatus(w, d, SCHEDULING), d, STARTING);
    var dep := w.deployments[d];
    DeploymentsKeepAgreed(w, starting);
    ManyProgress(starting, d, dep.digest, signature, orders, Want(w, d));
    assert RunningOf(starting, d) == {};
    var p := DispatchMany(starting, d, dep.digest, signature, orders, Want(w, d));
    FinalStatus(w, starting, p.world, d, if p.ok then RUNNING else FAILED);
  }

  /** The last write of the pipeline changes the status and nothing else. */
  lemma {:induction false} FinalStatus(w: World, starting: World, u: World, d: string, s: DeploymentStatus)
    requires d in w.deployments && starting == w.(deployments := w.deployments[d := w.deployments[d].(status := STARTING)])
    requires u.deployments == starting.deployments && Agreed(u) && OldRecordsKept(starting, u)
    ensures var v := SetStatus(u, d, s);
            && v.deployments == w.deployments[d := w.deployments[d].(status := s)] && Agreed(v) && OldRecordsKept(w, v)
            && RunningOf(v, d) == RunningOf(u, d) && v.containers == u.containers
  {
    DeploymentsKeepAgreed(u, SetStatus(u, d, s));
  }

  // ----- create

  /** The image and digest a build leaves. */
  function BuiltImage(dep: Deployment, b: Build): (string, string) {
    match b
    case BuiltAs(image, digest) => (image, digest)
    case Resolved(digest) => (dep.image, digest)
    case _ => (dep.image, dep.digest)
  }

  /** A create that succeeds: RUNNING, with as many RUNNING records as asked for, and containers of the image that was built. */
  lemma {:induction false} CreateSucceeds(w: World, d: string, dep: Deployment, b: Build, signature: string, orders: nat -> Order)
    requires Agreed(w) && d != "" && Untouched(w, d) && Fits(w, CreateOp(d, dep, b, signature, orders))
    requires Create(w, d, dep, b, signature, orders).ok
    ensures var v := Create(w, d, dep, b, signature, orders).world; var (image, digest) := BuiltImage(dep, b);
            && b != BuildFailed && b != PushFailed && b != RegistryDown
            && v.deployments == w.deployments[d := dep.(image := image, digest := digest, status := RUNNING)]
            && OldRecordsKept(w, v) && |RunningOf(v, d)| == RecordedOrOne(dep.count)
            && AllStamped(v, d, image, digest, signature)
  {
    var u := BuildPhase(CreateDeployment(w, d, dep), d, b).world;
    BuildOutcome(w, d, dep, b);
    BuildIsOnlyDeployments(w, d, dep, b);
    var (image, digest) := BuiltImage(dep, b);
    PipelineAfterBuild(w, u, d, dep.(image := image, digest := digest, status := u.deployments[d].status), signature, orders);
  }

  lemma {:induction false} PipelineAfterBuild(w: World, u: World, d: string, dep: Deployment, signature: string, orders: nat -> Order)
    requires Agreed(w) && d != "" && Untouched(w, d) && d !in w.deployments && OnlyDeployments(w, u)
    requires u.deployments == w.deployments[d := dep] && PipelineFits(u, d, signature, orders)
    ensures var p := ScheduleAndDispatch(u, d, signature, orders);
            && p.world.deployments == w.deployments[d := dep.(status := if p.ok then RUNNING else FAILED)]
            && OldRecordsKept(w, p.world) && AllStamped(p.world, d, dep.image, dep.digest, signature)
            && (p.ok ==> |RunningOf(p.world, d)| == RecordedOrOne(dep.count))
  {
    DeploymentsKeepAgreed(w, u);
    PipelineOutcome(u, d, signature, orders);
    var s := if ScheduleAndDispatch(u, d, signature, orders).ok then RUNNING else FAILED;
    assert u.deployments[d := dep.(status := s)] == w.deployments[d := dep.(status := s)];
  }

  /** A create that fails leaves the deployment FAILED; if the build failed, no record or container is touched. */
  lemma {:induction false} CreateFails(w: World, d: string, dep: Deployment, b: Build, signature: string, orders: nat -> Order)
    requires Agreed(w) && d != "" && Untouched(w, d) && Fits(w, CreateOp(d, dep, b, signature, orders))
    requires !Create(w, d, dep, b, signature, orders).ok
    ensures var v := Create(w, d, dep, b, signature, orders).world;
            && d in v.deployments && v.deployments[d].status == FAILED && OldRecordsKept(w, v)
            && (b == BuildFailed || b == PushFailed || b == RegistryDown ==>
                  v.instances == w.instances && v.containers == w.containers)
  {
    var p := BuildPhase(CreateDeployment(w, d, dep), d, b);
    BuildOutcome(w, d, dep, b);
    BuildIsOnlyDeployments(w, d, dep, b);
    DeploymentsKeepAgreed(w, p.world);
    if p.ok {
      PipelineOutcome(p.world, d, signature, orders);
    }
  }

  lemma {:induction false} BuildOutcome(w: World, d: string, dep: Deployment, b: Build)
    requires d !in w.deployments
    ensures var p := BuildPhase(CreateDeployment(w, d, dep), d, b); var (image, digest) := BuiltImage(dep, b);
            && (p.ok <==> b != BuildFailed && b != PushFailed && b != RegistryDown)
            && p.world == w.(deployments := p.world.deployments) && d in p.world.deployments
            && p.world.deployments == w.deployments[d := p.world.deployments[d]]
            && (p.ok ==> p.world.deployments[d] == dep.(image := image, digest := digest, status := p.world.deployments[d].status))
            && (p.ok ==> p.world.deployments[d].status == if b.BuiltAs? then BUILT else QUEUED)
            && (!p.ok ==> p.world.deployments[d].status == FAILED)
  {
  }

  // ----- stop

  /** A stopped deployment is STOPPED, and so are all its listed instances; nothing else changes. */
  lemma {:induction false} StopOutcome(w: World, d: string, order: seq<string>, stopped: nat -> bool)
    requires d in w.deployments && Agreed(w) && AllOf(w, d, order)
    ensures var v := StopDeployment(w, d, order, stopped);
            && v.deployments == w.deployments[d := w.deployments[d].(status := STOPPED)] && v.workers == w.workers
            && v.instances.Keys == w.instances.Keys
            && (forall i :: i in order ==> i in w.instances && v.instances[i] == w.instances[i].(status := Stopped))
            && (forall i :: i in w.instances && i !in order ==> v.instances[i] == w.instances[i])
  {
    StopManyHalts(w, d, order, stopped, |order|);
    assert order[..|order|] == order;
    forall i | i in order ensures i in w.instances {
      var k :| 0 <= k < |order| && order[k] == i;
      assert OfDeployment(w, d, order[k]);
    }
  }

  // ----- scale

  /** The records in `done` are stopped, and all others are as they were. */
  ghost predicate OnlyStopped(w: World, v: World, done: seq<string>) {
    && v.instances.Keys == w.instances.Keys
    && forall i :: i in w.instances ==> v.instances[i] == if i in done then w.instances[i].(status := Stopped) else w.instances[i]
  }

  lemma {:induction false} OneMoreStopped(w: World, u: World, v: World, d: string, done: seq<string>, i: string)
    requires OnlyStopped(w, u, done) && i in u.instances && u.instances[i].id == i && StopEffect(u, v, d, i)
    ensures OnlyStopped(w, v, done + [i])
  {
  }

  /** One more of the victims is stopped between the worlds `u` and `v`. */
  ghost predicate Halts(u: World, v: World, d: string, i: string) {
    i in u.instances && u.instances[i].id == i && StopEffect(u, v, d, i)
  }

  ghost predicate HaltsAt(w: World, d: string, victims: seq<string>, stopped: nat -> bool, n: nat)
    requires d in w.deployments
  {
    n < |victims| &&
    Halts(RetireMany(w, d, victims, stopped, n), RetireMany(w, d, victims, stopped, n + 1), d, victims[n])
  }

  lemma {:induction false} HaltsAddUp(w: World, d: string, victims: seq<string>, stopped: nat -> bool, n: nat)
    requires d in w.deployments && n <= |victims| && forall m: nat :: m < n ==> HaltsAt(w, d, victims, stopped, m)
    ensures OnlyStopped(w, RetireMany(w, d, victims, stopped, n), victims[..n])
  {
    if n > 0 {
      HaltsAddUp(w, d, victims, stopped, n - 1);
      assert HaltsAt(w, d, victims, stopped, n - 1);
      var u, v := RetireMany(w, d, victims, stopped, n - 1), RetireMany(w, d, victims, stopped, n);
      OneMoreStopped(w, u, v, d, victims[..n - 1], victims[n - 1]);
      assert victims[..n] == victims[..n - 1] + [victims[n - 1]];
    }
  }

  lemma {:induction false} RetireHalts(w: World, d: string, victims: seq<string>, stopped: nat -> bool, n: nat)
    requires d in w.deployments && n < |victims| && Agreed(w) && LiveFrom(w, d, victims, 0)
    ensures HaltsAt(w, d, victims, stopped, n)
  {
    RetireManyKeeps(w, d, victims, stopped, n);
    assert OfDeployment(RetireMany(w, d, victims, stopped, n), d, victims[n]);
    RetireDoes(RetireMany(w, d, victims, stopped, n), d, victims[n], stopped(n));
  }

  lemma {:induction false} RetireManyHalts(w: World, d: string, victims: seq<string>, stopped: nat -> bool)
    requires d in w.deployments && Agreed(w) && LiveFrom(w, d, victims, 0)
    ensures OnlyStopped(w, RetireMany(w, d, victims, stopped, |victims|), victims)
  {
    forall m: nat | m < |victims| ensures HaltsAt(w, d, victims, stopped, m) {
      RetireHalts(w, d, victims, stopped, m);
    }
    HaltsAddUp(w, d, victims, stopped, |victims|);
    assert victims[..|victims|] == victims;
  }

  /** A scale is refused for a target that is not positive, a deployment that is not there, or one that is not RUNNING. */
  lemma {:induction false} ScaleRefused(w: World, d: string, target: int, active: seq<string>, orders: nat -> Order, stopped: nat -> bool)
    requires target <= 0 || d !in w.deployments || w.deployments[d].status != RUNNING
    ensures Scale(w, d, target, active, orders, stopped) == Progress(w, false)
  {
  }

  /** Scaling down stops the last of the live instances listed, keeps the first ones, and records the target. */
  lemma {:induction false} ScaleDownOutcome(w: World, d: string, target: int, active: seq<string>,
                                            orders: nat -> Order, stopped: nat -> bool)
    requires Agreed(w) && d in w.deployments && w.deployments[d].status == RUNNING && ListsLive(w, d, active)
    requires 0 < target < |active|
    ensures var p := Scale(w, d, target, active, orders, stopped);
            && p.ok && p.world.deployments == w.deployments[d := w.deployments[d].(count := target)]
            && p.world.instances.Keys == w.instances.Keys
            && (forall k :: target <= k < |active| ==>
                  active[k] in w.instances && p.world.instances[active[k]] == w.instances[active[k]].(status := Stopped))
            && (forall i :: i in w.instances && i !in active[target..] ==> p.world.instances[i] == w.instances[i])
  {
    var victims := active[target..];
    SuffixLive(w, d, active, target);
    RetireManyHalts(w, d, victims, stopped);
    forall k | target <= k < |active| ensures active[k] in w.instances && active[k] in victims {
      assert OfDeployment(w, d, active[k]);
      assert victims[k - target] == active[k];
    }
  }

  /** Scaling up adds as many RUNNING records as were missing, of the deployment's image, and touches no other. */
  lemma {:induction false} ScaleUpOutcome(w: World, d: string, target: int, active: seq<string>, orders: nat -> Order, stopped: nat -> bool)
    requires Agreed(w) && d in w.deployments && d != "" && w.deployments[d].status == RUNNING
    requires |active| <= target && target > 0 && Fits(w, ScaleOp(d, target, active, orders, stopped))
    requires AllStamped(w, d, w.deployments[d].image, w.deployments[d].digest, "")
    ensures var p, dep := Scale(w, d, target, active, orders, stopped), w.deployments[d];
            && OldRecordsKept(w, p.world) && AllStamped(p.world, d, dep.image, dep.digest, "")
            && p.world.deployments == (if p.ok then w.deployments[d := dep.(count := target)] else w.deployments)
            && (p.ok ==> |RunningOf(p.world, d)| == |RunningOf(w, d)| + target - |active|)
  {
    var dep, n := w.deployments[d], target - |active|;
    assert OrdersFit(w, d, dep.digest, "", orders, n);
    ManyProgress(w, d, dep.digest, "", orders, n);
    var u, v := DispatchMany(w, d, dep.digest, "", orders, n).world, Scale(w, d, target, active, orders, stopped).world;
    assert RunningOf(v, d) == RunningOf(u, d);
  }

  // ----- rollback

  /** A release a rollback may go back to. */
  predicate Restorable(w: World, d: string, r: Release) {
    && r.deployment != d && r.digest != ""
    && (r.deployment == "" || r.deployment !in w.deployments || w.deployments[r.deployment].status != FAILED)
  }

  ghost predicate FirstRestorable(w: World, d: string, releases: seq<Release>, k: nat) {
    k < |releases| && Restorable(w, d, releases[k]) && forall j :: 0 <= j < k ==> !Restorable(w, d, releases[j])
  }

  /** The release chosen is the first restorable one in the list. */
  lemma {:induction false} ReleaseChosen(w: World, d: string, releases: seq<Release>) returns (k: nat)
    requires PreviousRelease(w, d, releases).Some?
    ensures FirstRestorable(w, d, releases, k) && PreviousRelease(w, d, releases).value == releases[k]
  {
    if KnownGood(w, d, releases[0]) {
      k := 0;
    } else {
      var j := ReleaseChosen(w, d, releases[1..]);
      k := j + 1;
      forall i | 0 <= i < k ensures !Restorable(w, d, releases[i]) {
        if i > 0 {
          assert releases[i] == releases[1..][i - 1];
        }
      }
    }
  }

  /** What a rollback that restored release `r` of deployment `d` as `next` leaves. */
  ghost predicate Restored(w: World, v: World, d: string, next: string, r: Release, order: seq<string>)
    requires d in w.deployments
  {
    && d in v.deployments && v.deployments[d] == w.deployments[d].(status := ROLLED_BACK)
    && next in v.deployments
    && v.deployments[next] == Deployment(w.deployments[d].project, r.image, r.digest, RUNNING,
                                         RecordedOrOne(w.deployments[d].count), w.deployments[d].labels)
    && |RunningOf(v, next)| == RecordedOrOne(w.deployments[d].count)
    && AllStamped(v, next, r.image, r.digest, r.signature)
    && (forall i :: i in order ==> i in v.instances && v.instances[i].status == Stopped)
    && (forall i :: i in w.instances && i !in order ==> i in v.instances && v.instances[i] == w.instances[i])
  }

  /**
   A rollback that succeeds has restored the first restorable release: its image and digest run
   as a new deployment with the old one's project, labels and count, under its signature, and
   the old deployment is rolled back with all its listed instances stopped.
   */
  lemma {:induction false} RollbackRestores(w: World, d: string, next: string, releases: seq<Release>, orders: nat -> Order,
                                            order: seq<string>, stopped: nat -> bool)
    requires Agreed(w) && next != "" && Untouched(w, next) && Fits(w, RollbackOp(d, next, releases, orders, order, stopped))
    requires Rollback(w, d, next, releases, orders, order, stopped).ok
    ensures d in w.deployments
    ensures exists k: nat :: FirstRestorable(w, d, releases, k)
                             && Restored(w, Rollback(w, d, next, releases, orders, order, stopped).world, d, next, releases[k], order)
  {
    var k := ReleaseChosen(w, d, releases);
    var r := releases[k];
    var started := CreateDeployment(w, next, RollbackRecord(w, d, r));
    assert OnlyDeployments(w, started);
    DeploymentsKeepAgreed(w, started);
    PipelineOutcome(started, next, r.signature, orders);
    var p := ScheduleAndDispatch(started, next, r.signature, orders);
    StopManyHalts(p.world, d, order, stopped, |order|);
    assert order[..|order|] == order;
    SupersededRecords(w, p.world, StopMany(p.world, d, order, stopped, |order|), d, next, order);
    StopOnlyRemoves(p.world, d, order, stopped, |order|);
    assert Restored(w, Rollback(w, d, next, releases, orders, order, stopped).world, d, next, r, order);
  }

  /** Stopping the old instances leaves the new ones running. */
  lemma {:induction false} SupersededRecords(w: World, u: World, v: World, d: string, next: string, order: seq<string>)
    requires d != next && OldRecordsKept(w, u) && Halted(u, v, order) && AllOf(u, d, order)
    ensures RunningOf(v, next) == RunningOf(u, next)
    ensures forall i :: i in order ==> i in v.instances && v.instances[i].status == Stopped
    ensures forall i :: i in w.instances && i !in order ==> i in v.instances && v.instances[i] == w.instances[i]
  {
    forall i | i in order ensures i in u.instances && u.instances[i].deployment == d {
      var k :| 0 <= k < |order| && order[k] == i;
      assert OfDeployment(u, d, order[k]);
    }
  }

  lemma {:induction false} StopOnlyRemoves(w: World, d: string, order: seq<string>, stopped: nat -> bool, n: nat)
    requires d in w.deployments && n <= |order|
    ensures StopMany(w, d, order, stopped, n).containers <= w.containers
  {
    if n > 0 {
      StopOnlyRemoves(w, d, order, stopped, n - 1);
    }
  }

  /** A rollback is refused for a deployment that is not there or already rolled back, or without a restorable release. */
  lemma {:induction false} RollbackRefused(w: World, d: string, next: string, releases: seq<Release>, orders: nat -> Order,
                                           order: seq<string>, stopped: nat -> bool)
    requires d !in w.deployments || w.deployments[d].status == ROLLED_BACK
             || forall j :: 0 <= j < |releases| ==> !Restorable(w, d, releases[j])
    ensures Rollback(w, d, next, releases, orders, order, stopped) == Progress(w, false)
  {
    if PreviousRelease(w, d, releases).Some? {
      var k := ReleaseChosen(w, d, releases);
    }
  }

  /** A rollback that fails on the way leaves the old deployment and its instances as they were. */
  lemma {:induction false} RollbackFailsSafely(w: World, d: string, next: string, releases: seq<Release>, orders: nat -> Order,
                                               order: seq<string>, stopped: nat -> bool)
    requires Agreed(w) && next != "" && Untouched(w, next) && Fits(w, RollbackOp(d, next, releases, orders, order, stopped))
    requires !Rollback(w, d, next, releases, orders, order, stopped).ok && d in w.deployments
    ensures var v := Rollback(w, d, next, releases, orders, order, stopped).world;
            d in v.deployments && v.deployments[d] == w.deployments[d] && OldRecordsKept(w, v)
  {
    var r := PreviousRelease(w, d, releases);
    if w.deployments[d].status != ROLLED_BACK && r.Some? {
      var started := CreateDeployment(w, next, RollbackRecord(w, d, r.value));
      assert OnlyDeployments(w, started);
      DeploymentsKeepAgreed(w, started);
      PipelineOutcome(started, next, r.value.signature, orders);
    }
  }
}
