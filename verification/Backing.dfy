/**
 Records and containers: over any run of the service every RUNNING record has a running
 container on its worker, and what a stop reaches is gone.
 */
module Backing {
  import opened Wrappers
  import opened Scheduler
  import opened Diff
  import opened Cluster
  import opened Reconcile
  import opened Deployments
  import opened Books
  import opened ServiceRuns

  // ----- invariant

  ghost predicate BackedAt(w: World, i: string)
    requires i in w.instances
  {
    w.instances[i].status == Running ==> HasReplica(w, w.instances[i].worker, w.instances[i].key)
  }

  ghost predicate Backed(w: World) {
    forall i :: i in w.instances ==> BackedAt(w, i)
  }

  /** Instance keys differ, and no container ID is an instance key. */
  ghost predicate NamesApart(w: World) {
    && (forall i :: i in w.instances ==> w.instances[i].id == i)
    && (forall i, j :: i in w.instances && j in w.instances && w.instances[i].key == w.instances[j].key ==> i == j)
    && (forall c, i :: c in w.containers && i in w.instances ==> c.id != w.instances[i].key)
  }

  ghost predicate BackInv(w: World) {
    Backed(w) && NamesApart(w)
  }

  /** The order's names are new: no instance has its ID or key, and no container ID clashes with a key. */
  ghost predicate NewNames(w: World, o: Order) {
    && o.id !in w.instances && o.containerID != o.key
    && (forall i :: i in w.instances ==> w.instances[i].key != o.key && w.instances[i].key != o.containerID)
    && (forall c :: c in w.containers ==> c.id != o.key)
  }

  // ----- containers come and go

  /** Replicas under other keys are not affected. */
  ghost predicate OthersStay(w: World, v: World, key: string) {
    forall worker, k :: k != key && HasReplica(w, worker, k) ==> HasReplica(v, worker, k)
  }

  lemma {:induction false} RunKeepsOthers(w: World, v: World, c: Container)
    requires v.containers == RunOn(w.containers, c)
    ensures OthersStay(w, v, c.key)
    ensures c.state == "running" ==> HasReplica(v, c.worker, c.key)
  {
    forall worker, k | k != c.key && HasReplica(w, worker, k) ensures HasReplica(v, worker, k) {
      var x :| x in w.containers && x.worker == worker && x.key == k && x.state == "running";
      assert x in v.containers;
    }
    assert c in v.containers;
  }

  lemma {:induction false} StopKeepsOthers(w: World, v: World, worker: string, key: string)
    requires v.containers == w.containers || v.containers == StopOn(w.containers, worker, key)
    requires forall c :: c in w.containers ==> c.id != key
    ensures OthersStay(w, v, key)
    ensures forall at :: at != worker && HasReplica(w, at, key) ==> HasReplica(v, at, key)
  {
    forall at, k | (k != key || at != worker) && HasReplica(w, at, k) ensures HasReplica(v, at, k) {
      var x :| x in w.containers && x.worker == at && x.key == k && x.state == "running";
      assert x in v.containers;
    }
  }

  /** One record becomes `inst`; if that is running, it has its container. */
  lemma {:induction false} RecordBacked(w: World, v: World, inst: Instance)
    requires Backed(w) && OneRecord(w, v, inst) && OthersStay(w, v, inst.key)
    requires forall j :: j in w.instances && j != inst.id ==> w.instances[j].key != inst.key
    requires inst.status == Running ==> HasReplica(v, inst.worker, inst.key)
    ensures Backed(v)
  {
    forall i | i in v.instances ensures BackedAt(v, i) {
      if i != inst.id {
        assert BackedAt(w, i);
      }
    }
  }

  // ----- dispatch

  lemma {:induction false} PlacedBacked(w: World, d: string, digest: string, signature: string, o: Order, t: string)
    requires d in w.deployments && BackInv(w) && NewNames(w, o) && t in w.workers && w.workers[t].active >= 0
    ensures BackInv(Placed(w, d, digest, signature, o, t))
  {
    var v, dep := Placed(w, d, digest, signature, o, t), w.deployments[d];
    var c := NewContainer(t, o.containerID, o.key, d, dep.image, StampedLabels(dep.labels, digest, signature));
    PlacedDoes(w, d, digest, signature, o, t);
    PlacedContainers(w, d, digest, signature, o, t);
    RunKeepsOthers(w, v, c);
    RecordBacked(w, v, Dispatched(d, o, t, true));
  }

  lemma {:induction false} PlacedContainers(w: World, d: string, digest: string, signature: string, o: Order, t: string)
    requires d in w.deployments
    ensures var dep := w.deployments[d];
            Placed(w, d, digest, signature, o, t).containers
            == RunOn(w.containers, NewContainer(t, o.containerID, o.key, d, dep.image, StampedLabels(dep.labels, digest, signature)))
  {
  }

  lemma {:induction false} FailedBacked(w: World, d: string, o: Order)
    requires BackInv(w) && NewNames(w, o)
    ensures BackInv(MarkFailed(CreateInstance(w, NewInstance(d, o)), d, o))
  {
    var v := MarkFailed(CreateInstance(w, NewInstance(d, o)), d, o);
    FailedDoes(w, d, o);
    assert v.containers == w.containers;
    RecordBacked(w, v, Dispatched(d, o, "", false));
  }

  lemma {:induction false} DispatchBacked(w: World, d: string, digest: string, signature: string, o: Order)
    requires d in w.deployments && BackInv(w) && Sane(w) && ListsWorkers(w, o.listed) && NewNames(w, o)
    ensures BackInv(Dispatch(w, d, digest, signature, o).world)
  {
    var pending := CreateInstance(w, NewInstance(d, o));
    var s := Pick(pending, d, o);
    if s.Chosen? && o.dialed && o.ran {
      PickIsFeasible(w, pending, d, o);
      PlacedBacked(w, d, digest, signature, o, s.worker.id);
      assert Dispatch(w, d, digest, signature, o) == Progress(Placed(w, d, digest, signature, o, s.worker.id), true);
    } else {
      FailedBacked(w, d, o);
      assert Dispatch(w, d, digest, signature, o) == Progress(MarkFailed(pending, d, o), false);
    }
  }

  ghost function Naming(orders: nat -> Order): (World, nat) -> bool {
    (u: World, k: nat) => OrderFits(u, orders(k)) && NewNames(u, orders(k))
  }

  ghost predicate OrdersNamed(w: World, d: string, digest: string, signature: string, orders: nat -> Order,
                              count: nat) {
    forall k: nat :: k < count ==> Naming(orders)(Series(w, Placing(d, digest, signature, orders), k).world, k)
  }

  ghost predicate Solid(w: World) {
    BackInv(w) && Agreed(w)
  }

  lemma {:induction false} DispatchSolid(w: World, d: string, digest: string, signature: string, o: Order)
    requires d in w.deployments && Solid(w) && OrderFits(w, o) && NewNames(w, o)
    ensures Solid(Dispatch(w, d, digest, signature, o).world)
  {
    DispatchBacked(w, d, digest, signature, o);
    DispatchStepAgreed(w, d, digest, signature, o);
  }

  lemma {:induction false} ManySolid(w: World, d: string, digest: string, signature: string,
                                     orders: nat -> Order, n: nat)
    requires d in w.deployments && Solid(w) && OrdersNamed(w, d, digest, signature, orders, n)
    ensures Solid(DispatchMany(w, d, digest, signature, orders, n).world)
  {
    var step, inv := Placing(d, digest, signature, orders), (u: World) => Solid(u);
    forall u, k: nat | inv(u) && Naming(orders)(u, k) ensures inv(step(u, k).world) {
      if d in u.deployments {
        DispatchSolid(u, d, digest, signature, orders(k));
      }
    }
    SeriesKeeps(w, step, n, Naming(orders), inv);
  }

  // ----- stopping

  lemma {:induction false} StopInstanceBacked(w: World, d: string, i: string, stopped: bool)
    requires BackInv(w) && Records(w) && OfDeployment(w, d, i)
    ensures BackInv(StopInstance(w, d, i, stopped)) && BackInv(Retire(w, d, i, stopped))
  {
    StopDoes(w, d, i, stopped);
    RetireDoes(w, d, i, stopped);
    StoppedBacked(w, StopInstance(w, d, i, stopped), d, i);
    StoppedBacked(w, Retire(w, d, i, stopped), d, i);
  }

  lemma {:induction false} StoppedBacked(w: World, v: World, d: string, i: string)
    requires BackInv(w) && StopEffect(w, v, d, i)
    requires v.containers == w.containers || v.containers == StopOn(w.containers, w.instances[i].worker, w.instances[i].key)
    ensures BackInv(v)
  {
    StopKeepsOthers(w, v, w.instances[i].worker, w.instances[i].key);
    RecordBacked(w, v, StoppedRecord(w, i));
  }

  lemma {:induction false} StopManyBacked(w: World, d: string, order: seq<string>, stopped: nat -> bool, n: nat)
    requires d in w.deployments && n <= |order| && Solid(w) && AllOf(w, d, order)
    ensures BackInv(StopMany(w, d, order, stopped, n))
  {
    if n > 0 {
      StopManyBacked(w, d, order, stopped, n - 1);
      StopManyKeeps(w, d, order, stopped, n - 1);
      var u := StopMany(w, d, order, stopped, n - 1);
      assert OfDeployment(u, d, order[n - 1]);
      StopInstanceBacked(u, d, order[n - 1], stopped(n - 1));
    }
  }

  lemma {:induction false} StopManySolid(w: World, d: string, order: seq<string>, stopped: nat -> bool, n: nat)
    requires d in w.deployments && n <= |order| && Solid(w) && AllOf(w, d, order)
    ensures Solid(StopMany(w, d, order, stopped, n))
  {
    StopManyKeeps(w, d, order, stopped, n);
    StopManyBacked(w, d, order, stopped, n);
  }

  lemma {:induction false} RetireManySolid(w: World, d: string, victims: seq<string>, stopped: nat -> bool, n: nat)
    requires d in w.deployments && n <= |victims| && Solid(w) && LiveFrom(w, d, victims, 0)
    ensures Solid(RetireMany(w, d, victims, stopped, n))
  {
    RetireManyKeeps(w, d, victims, stopped, n);
    if n > 0 {
      RetireManySolid(w, d, victims, stopped, n - 1);
      RetireManyKeeps(w, d, victims, stopped, n - 1);
      var u := RetireMany(w, d, victims, stopped, n - 1);
      assert OfDeployment(u, d, victims[n - 1]);
      StopInstanceBacked(u, d, victims[n - 1], stopped(n - 1));
    }
  }

  ghost predicate ClearedTo(w: World, v: World, order: seq<string>, stopped: nat -> bool, n: nat) {
    n <= |order| && forall j: nat :: j < n && stopped(j) && order[j] in w.instances && w.instances[order[j]].worker in w.workers ==>
                      NoContainer(v, w.instances[order[j]].worker, w.instances[order[j]].key)
  }

  ghost predicate SamePlaces(w: World, v: World) {
    && v.instances.Keys == w.instances.Keys && v.workers == w.workers && v.containers <= w.containers
    && forall i :: i in w.instances ==> v.instances[i].worker == w.instances[i].worker && v.instances[i].key == w.instances[i].key
  }

  /** Stopping a deployment takes down every container of its instances whose stop succeeds. */
  lemma {:induction false} StopClears(w: World, d: string, order: seq<string>, stopped: nat -> bool, n: nat)
    requires d in w.deployments && n <= |order| && Agreed(w) && AllOf(w, d, order)
    ensures SamePlaces(w, StopMany(w, d, order, stopped, n))
    ensures ClearedTo(w, StopMany(w, d, order, stopped, n), order, stopped, n)
  {
    if n > 0 {
      StopClears(w, d, order, stopped, n - 1);
      StopManyKeeps(w, d, order, stopped, n - 1);
      var u, i := StopMany(w, d, order, stopped, n - 1), order[n - 1];
      assert OfDeployment(u, d, i);
      StopMoves(u, d, i, stopped(n - 1));
      OneMoreCleared(w, u, StopInstance(u, d, i, stopped(n - 1)), order, stopped, n);
    }
  }

  lemma {:induction false} StopMoves(u: World, d: string, i: string, stopped: bool)
    requires Agreed(u) && OfDeployment(u, d, i)
    ensures SamePlaces(u, StopInstance(u, d, i, stopped))
    ensures stopped && u.instances[i].worker in u.workers ==>
              StopInstance(u, d, i, stopped).containers == StopOn(u.containers, u.instances[i].worker, u.instances[i].key)
  {
    StopDoes(u, d, i, stopped);
  }

  lemma {:induction false} OneMoreCleared(w: World, u: World, v: World, order: seq<string>,
                                          stopped: nat -> bool, n: nat)
    requires 0 < n <= |order| && SamePlaces(w, u) && ClearedTo(w, u, order, stopped, n - 1)
    requires v.containers <= u.containers
    requires order[n - 1] in w.instances && stopped(n - 1) && w.instances[order[n - 1]].worker in w.workers ==>
               v.containers == StopOn(u.containers, w.instances[order[n - 1]].worker, w.instances[order[n - 1]].key)
    ensures ClearedTo(w, v, order, stopped, n)
  {
    forall j: nat | j < n && stopped(j) && order[j] in w.instances && w.instances[order[j]].worker in w.workers
      ensures NoContainer(v, w.instances[order[j]].worker, w.instances[order[j]].key)
    {
      if j < n - 1 {
        assert NoContainer(u, w.instances[order[j]].worker, w.instances[order[j]].key);
      }
    }
  }

  /** Scaling an instance away takes its container down if the stop succeeds. */
  lemma {:induction false} RetireClears(w: World, d: string, i: string, stopped: bool)
    requires Agreed(w) && OfDeployment(w, d, i) && stopped && w.instances[i].worker in w.workers
    ensures NoContainer(Retire(w, d, i, stopped), w.instances[i].worker, w.instances[i].key)
    ensures Retire(w, d, i, stopped).containers <= w.containers
  {
    assert Retire(w, d, i, stopped).containers == StopOn(w.containers, w.instances[i].worker, w.instances[i].key);
  }

  // ----- migration

  lemma {:induction false} MigrationBacked(w: World, i: string, from: string, a: Attempt, oldStopped: bool)
    requires BackInv(w) && Records(w) && PickFits(w, i, a)
    requires i in w.instances ==> forall j :: j in w.instances ==> w.instances[j].key != a.newID
    ensures BackInv(MigrateStep(Start(w), i, from, a, oldStopped).world)
  {
    var p := Start(w);
    MigrateDoes(p, i, from, a, oldStopped);
    if Migrates(p, i, from, a) {
      var v := MigrateStep(p, i, from, a, oldStopped).world;
      var inst, dep := w.instances[i], w.deployments[w.instances[i].deployment];
      var c := NewContainer(a.pick.value, a.newID, inst.key, inst.deployment, dep.image, dep.labels);
      var mid := w.(containers := RunOn(w.containers, c));
      RunKeepsOthers(w, mid, c);
      assert v.containers == mid.containers || v.containers == StopOn(mid.containers, from, inst.key);
      StopKeepsOthers(mid, v, from, inst.key);
      assert a.pick.value != from;
      RecordBacked(w, v, inst.(worker := a.pick.value, container := a.newID));
    }
  }

  // ----- whole runs

  ghost predicate PipelineNamed(w: World, d: string, signature: string, orders: nat -> Order) {
    d in w.deployments
    && OrdersNamed(SetStatus(SetStatus(w, d, SCHEDULING), d, STARTING), d, w.deployments[d].digest, signature, orders, Want(w, d))
  }

  /** Like Fits, and the new instances' and containers' names do not clash. */
  ghost predicate Named(w: World, op: Op) {
    Fits(w, op) &&
    match op
    case CreateOp(d, dep, build, signature, orders) =>
      var p := BuildPhase(CreateDeployment(w, d, dep), d, build);
      p.ok ==> PipelineNamed(p.world, d, signature, orders)
    case ScaleOp(d, target, active, orders, stopped) =>
      d in w.deployments && target > |active| ==> OrdersNamed(w, d, w.deployments[d].digest, "", orders, target - |active|)
    case MigrateOp(i, from, attempt, oldStopped) => forall j :: j in w.instances ==> w.instances[j].key != attempt.newID
    case StopOp(d, order, stopped) => true
    case RollbackOp(d, successor, releases, orders, order, stopped) =>
      d in w.deployments && PreviousRelease(w, d, releases).Some? ==>
        var r := PreviousRelease(w, d, releases).value;
        PipelineNamed(CreateDeployment(w, successor, RollbackRecord(w, d, r)), successor, r.signature, orders)
  }

  lemma {:induction false} DeploymentsSolid(w: World, v: World)
    requires OnlyDeployments(w, v) && Solid(w)
    ensures Solid(v)
  {
    DeploymentsKeepAgreed(w, v);
    forall worker, k | HasReplica(w, worker, k) ensures HasReplica(v, worker, k) {
      var x :| x in w.containers && x.worker == worker && x.key == k && x.state == "running";
      assert x in v.containers;
    }
    forall i | i in v.instances ensures BackedAt(v, i) {
      assert BackedAt(w, i);
    }
  }

  lemma {:induction false} PipelineSolid(w: World, d: string, signature: string, orders: nat -> Order)
    requires PipelineNamed(w, d, signature, orders) && Solid(w)
    ensures Solid(ScheduleAndDispatch(w, d, signature, orders).world)
  {
    var starting := SetStatus(SetStatus(w, d, SCHEDULING), d, STARTING);
    var p := DispatchMany(starting, d, w.deployments[d].digest, signature, orders, Want(w, d));
    DeploymentsSolid(w, starting);
    ManySolid(starting, d, w.deployments[d].digest, signature, orders, Want(w, d));
    DeploymentsSolid(p.world, ScheduleAndDispatch(w, d, signature, orders).world);
  }

  lemma {:induction false} CreateSolid(w: World, op: Op)
    requires op.CreateOp? && Named(w, op) && Solid(w)
    ensures Solid(Apply(w, op))
  {
    var p := BuildPhase(CreateDeployment(w, op.d, op.dep), op.d, op.build);
    BuildIsOnlyDeployments(w, op.d, op.dep, op.build);
    DeploymentsSolid(w, p.world);
    if p.ok {
      PipelineSolid(p.world, op.d, op.signature, op.orders);
    }
  }

  lemma {:induction false} ScaleSolid(w: World, op: Op)
    requires op.ScaleOp? && Named(w, op) && Solid(w)
    ensures Solid(Apply(w, op))
  {
    var d := op.d;
    if op.target <= 0 || d !in w.deployments || w.deployments[d].status != RUNNING {
    } else if op.target >= |op.active| {
      var digest, n := w.deployments[d].digest, op.target - |op.active|;
      assert OrdersNamed(w, d, digest, "", op.orders, n);
      ManySolid(w, d, digest, "", op.orders, n);
      var p := DispatchMany(w, d, digest, "", op.orders, n);
      DeploymentsSolid(p.world, SetCount(p.world, d, op.target));
    } else {
      var victims := op.active[op.target..];
      SuffixLive(w, d, op.active, op.target);
      RetireManySolid(w, d, victims, op.stopped, |victims|);
      DeploymentsSolid(RetireMany(w, d, victims, op.stopped, |victims|), Apply(w, op));
    }
  }

  lemma {:induction false} StopSolid(w: World, op: Op)
    requires op.StopOp? && Named(w, op) && Solid(w)
    ensures Solid(Apply(w, op))
  {
    if op.d in w.deployments {
      StopManySolid(w, op.d, op.order, op.stopped, |op.order|);
      DeploymentsSolid(StopMany(w, op.d, op.order, op.stopped, |op.order|), Apply(w, op));
    }
  }

  lemma {:induction false} RollbackSolid(w: World, op: Op)
    requires op.RollbackOp? && Named(w, op) && Solid(w)
    ensures Solid(Apply(w, op))
  {
    var d, r := op.d, PreviousRelease(w, op.d, op.releases);
    if d in w.deployments && w.deployments[d].status != ROLLED_BACK && r.Some? {
      var started := CreateDeployment(w, op.successor, RollbackRecord(w, d, r.value));
      assert OnlyDeployments(w, started);
      DeploymentsSolid(w, started);
      PipelineSolid(started, op.successor, r.value.signature, op.orders);
      var p := ScheduleAndDispatch(started, op.successor, r.value.signature, op.orders);
      if p.ok {
        SupersededSolid(p.world, d, op.order, op.stopped);
      }
    }
  }

  lemma {:induction false} SupersededSolid(w: World, d: string, order: seq<string>, stopped: nat -> bool)
    requires d in w.deployments && Solid(w) && AllOf(w, d, order)
    ensures Solid(SetStatus(StopMany(w, d, order, stopped, |order|), d, ROLLED_BACK))
  {
    StopManySolid(w, d, order, stopped, |order|);
    var u := StopMany(w, d, order, stopped, |order|);
    DeploymentsSolid(u, SetStatus(u, d, ROLLED_BACK));
  }

  ghost predicate AllNamed(w: World, ops: seq<Op>) {
    ops == [] || (AllNamed(w, ops[..|ops| - 1]) && Named(Run(w, ops[..|ops| - 1]), ops[|ops| - 1]))
  }

  /**
   Over any run of creating, scaling, migrating, stopping and rolling back, with any calls
   failing, every RUNNING record has a running container under its key on its worker.
   */
  lemma {:induction false} RunningMeansBacked(w: World, ops: seq<Op>)
    requires Solid(w) && AllNamed(w, ops)
    ensures Solid(Run(w, ops)) && Backed(Run(w, ops))
  {
    if ops != [] {
      var front, op := ops[..|ops| - 1], ops[|ops| - 1];
      RunningMeansBacked(w, front);
      var u := Run(w, front);
      match op
      case CreateOp(_, _, _, _, _) => CreateSolid(u, op);
      case ScaleOp(_, _, _, _, _) => ScaleSolid(u, op);
      case MigrateOp(_, _, _, _) =>
        MigrateKeeps(u, op);
        MigrationBacked(u, op.i, op.from, op.attempt, op.oldStopped);
      case StopOp(_, _, _) => StopSolid(u, op);
      case RollbackOp(_, _, _, _, _, _) => RollbackSolid(u, op);
    }
  }

  /** A new cluster meets all the invariants of the run theorems. */
  lemma {:induction false} NewClusterFits(w: World)
    requires NewCluster(w)
    ensures Ledger(w) && Agreed(w) && Solid(w)
  {
    forall k | k in w.workers ensures Balances(w, k) {
      assert Assigned(w, k) == {};
    }
    forall project | project != "" ensures RoutedFor(w, project) {
      assert TargetsOf(w, project) == [];
    }
  }
}
