/**
 Where routes point.  A target names the worker its instance ran on when it was registered;
 nothing but a new registration changes it, so it is right until the record moves.
 */
module Routing {
  import opened Wrappers
  import opened Scheduler
  import opened Diff
  import opened Cluster
  import opened Reconcile
  import opened DiffFacts
  import opened Convergence
  import opened Deployments
  import opened Books
  import opened ServiceRuns

  /** The target names the worker of its instance's record. */
  predicate PointsAt(w: World, t: Target) {
    t.instance in w.instances ==> t.worker == w.instances[t.instance].worker
  }

  ghost predicate PointsRight(w: World) {
    forall project, t :: project != "" && t in RoutesOf(w, project) ==> PointsAt(w, t)
  }

  ghost predicate Steady(w: World) {
    Agreed(w) && PointsRight(w)
  }

  /** With the router in agreement, only instances with a record are routed. */
  lemma {:induction false} RoutedHasRecord(w: World, project: string, t: Target)
    requires Routed(w) && project != "" && t in RoutesOf(w, project)
    ensures t.instance in w.instances && RunsFor(w, project, t.instance)
  {
    var k :| 0 <= k < |RoutesOf(w, project)| && RoutesOf(w, project)[k] == t;
    assert TargetsOf(w, project)[k] == t.instance;
    assert t.instance in TargetsOf(w, project);
    assert RoutedFor(w, project);
  }

  // ----- dispatch

  lemma {:induction false} DispatchPoints(w: World, v: World, d: string, o: Order, ok: bool, t: string)
    requires Steady(w) && FreshOrder(w, o) && DispatchEffect(w, v, d, o, ok, t)
    ensures PointsRight(v)
  {
    forall project, x | project != "" && x in RoutesOf(v, project) ensures PointsAt(v, x) {
      if x != Target(o.id, t) || !ok {
        assert x in RoutesOf(w, project) && PointsAt(w, x);
        RoutedHasRecord(w, project, x);
        assert x.instance != o.id;
      }
    }
  }

  lemma {:induction false} DispatchSteady(w: World, d: string, digest: string, signature: string, o: Order)
    requires d in w.deployments && Steady(w) && OrderFits(w, o)
    ensures Steady(Dispatch(w, d, digest, signature, o).world)
  {
    var q := Dispatch(w, d, digest, signature, o);
    DispatchDoes(w, d, digest, signature, o);
    DispatchPoints(w, q.world, d, o, q.ok, TargetOf(w, d, o));
    DispatchStepAgreed(w, d, digest, signature, o);
  }

  lemma {:induction false} ManySteady(w: World, d: string, digest: string, signature: string,
                                      orders: nat -> Order, n: nat)
    requires d in w.deployments && Steady(w) && OrdersFit(w, d, digest, signature, orders, n)
    ensures Steady(DispatchMany(w, d, digest, signature, orders, n).world)
  {
    var step, inv := Placing(d, digest, signature, orders), (u: World) => Steady(u);
    forall u, k: nat | inv(u) && Fitting(orders)(u, k) ensures inv(step(u, k).world) {
      if d in u.deployments {
        DispatchSteady(u, d, digest, signature, orders(k));
      }
    }
    SeriesKeeps(w, step, n, Fitting(orders), inv);
  }

  // ----- stopping

  lemma {:induction false} StopPoints(w: World, v: World, d: string, i: string)
    requires PointsRight(w) && Records(w) && StopEffect(w, v, d, i)
    ensures PointsRight(v)
  {
    forall project, x | project != "" && x in RoutesOf(v, project) ensures PointsAt(v, x) {
      assert x in RoutesOf(w, project);
      assert PointsAt(w, x);
    }
  }

  lemma {:induction false} StopManyPoints(w: World, d: string, order: seq<string>, stopped: nat -> bool, n: nat)
    requires d in w.deployments && n <= |order| && Steady(w) && AllOf(w, d, order)
    ensures PointsRight(StopMany(w, d, order, stopped, n))
  {
    if n > 0 {
      StopManyPoints(w, d, order, stopped, n - 1);
      StopManyKeeps(w, d, order, stopped, n - 1);
      var u, i := StopMany(w, d, order, stopped, n - 1), order[n - 1];
      assert OfDeployment(u, d, i);
      StopDoes(u, d, i, stopped(n - 1));
      StopPoints(u, StopInstance(u, d, i, stopped(n - 1)), d, i);
    }
  }

  lemma {:induction false} StopManySteady(w: World, d: string, order: seq<string>, stopped: nat -> bool, n: nat)
    requires d in w.deployments && n <= |order| && Steady(w) && AllOf(w, d, order)
    ensures Steady(StopMany(w, d, order, stopped, n))
  {
    StopManyKeeps(w, d, order, stopped, n);
    StopManyPoints(w, d, order, stopped, n);
  }

  lemma {:induction false} RetireManyPoints(w: World, d: string, victims: seq<string>, stopped: nat -> bool, n: nat)
    requires d in w.deployments && n <= |victims| && Steady(w) && LiveFrom(w, d, victims, 0)
    ensures PointsRight(RetireMany(w, d, victims, stopped, n))
  {
    if n > 0 {
      RetireManyPoints(w, d, victims, stopped, n - 1);
      RetireManyKeeps(w, d, victims, stopped, n - 1);
      var u, i := RetireMany(w, d, victims, stopped, n - 1), victims[n - 1];
      assert OfDeployment(u, d, i);
      RetireDoes(u, d, i, stopped(n - 1));
      StopPoints(u, Retire(u, d, i, stopped(n - 1)), d, i);
    }
  }

  lemma {:induction false} RetireManySteady(w: World, d: string, victims: seq<string>, stopped: nat -> bool, n: nat)
    requires d in w.deployments && n <= |victims| && Steady(w) && LiveFrom(w, d, victims, 0)
    ensures Steady(RetireMany(w, d, victims, stopped, n))
  {
    RetireManyKeeps(w, d, victims, stopped, n);
    RetireManyPoints(w, d, victims, stopped, n);
  }

  lemma {:induction false} DeploymentsSteady(w: World, v: World)
    requires OnlyDeployments(w, v) && Steady(w)
    ensures Steady(v)
  {
    DeploymentsKeepAgreed(w, v);
    forall project, x | project != "" && x in RoutesOf(v, project) ensures PointsAt(v, x) {
      assert x in RoutesOf(w, project) && PointsAt(w, x);
    }
  }

  // ----- operations

  lemma {:induction false} PipelineSteady(w: World, d: string, signature: string, orders: nat -> Order)
    requires PipelineFits(w, d, signature, orders) && Steady(w)
    ensures Steady(ScheduleAndDispatch(w, d, signature, orders).world)
  {
    var starting := SetStatus(SetStatus(w, d, SCHEDULING), d, STARTING);
    var p := DispatchMany(starting, d, w.deployments[d].digest, signature, orders, Want(w, d));
    DeploymentsSteady(w, starting);
    ManySteady(starting, d, w.deployments[d].digest, signature, orders, Want(w, d));
    DeploymentsSteady(p.world, ScheduleAndDispatch(w, d, signature, orders).world);
  }

  lemma {:induction false} CreateSteady(w: World, op: Op)
    requires op.CreateOp? && Fits(w, op) && Steady(w)
    ensures Steady(Apply(w, op))
  {
    var p := BuildPhase(CreateDeployment(w, op.d, op.dep), op.d, op.build);
    BuildIsOnlyDeployments(w, op.d, op.dep, op.build);
    DeploymentsSteady(w, p.world);
    if p.ok {
      PipelineSteady(p.world, op.d, op.signature, op.orders);
    }
  }

  lemma {:induction false} ScaleSteady(w: World, op: Op)
    requires op.ScaleOp? && Fits(w, op) && Steady(w)
    ensures Steady(Apply(w, op))
  {
    var d := op.d;
    if op.target <= 0 || d !in w.deployments || w.deployments[d].status != RUNNING {
    } else if op.target >= |op.active| {
      var digest, n := w.deployments[d].digest, op.target - |op.active|;
      assert OrdersFit(w, d, digest, "", op.orders, n);
      ManySteady(w, d, digest, "", op.orders, n);
      var p := DispatchMany(w, d, digest, "", op.orders, n);
      DeploymentsSteady(p.world, SetCount(p.world, d, op.target));
    } else {
      var victims := op.active[op.target..];
      SuffixLive(w, d, op.active, op.target);
      RetireManySteady(w, d, victims, op.stopped, |victims|);
      DeploymentsSteady(RetireMany(w, d, victims, op.stopped, |victims|), Apply(w, op));
    }
  }

  lemma {:induction false} HaltSteady(w: World, d: string, order: seq<string>, stopped: nat -> bool,
                                      s: DeploymentStatus)
    requires d in w.deployments && Steady(w) && AllOf(w, d, order)
    ensures Steady(SetStatus(StopMany(w, d, order, stopped, |order|), d, s))
  {
    StopManySteady(w, d, order, stopped, |order|);
    var u := StopMany(w, d, order, stopped, |order|);
    DeploymentsSteady(u, SetStatus(u, d, s));
  }

  lemma {:induction false} RollbackSteady(w: World, op: Op)
    requires op.RollbackOp? && Fits(w, op) && Steady(w)
    ensures Steady(Apply(w, op))
  {
    var d, r := op.d, PreviousRelease(w, op.d, op.releases);
    if d in w.deployments && w.deployments[d].status != ROLLED_BACK && r.Some? {
      var started := CreateDeployment(w, op.successor, RollbackRecord(w, d, r.value));
      assert OnlyDeployments(w, started);
      DeploymentsSteady(w, started);
      PipelineSteady(started, op.successor, r.value.signature, op.orders);
      var p := ScheduleAndDispatch(started, op.successor, r.value.signature, op.orders);
      if p.ok {
        HaltSteady(p.world, d, op.order, op.stopped, ROLLED_BACK);
      }
    }
  }

  /**
   Over any run of creating, scaling, stopping and rolling back, failures included, every route
   names the worker its instance's record names.
   */
  lemma {:induction false} RoutesPointRightOverRuns(w: World, ops: seq<Op>)
    requires Steady(w) && AllFit(w, ops) && forall n :: 0 <= n < |ops| ==> !ops[n].MigrateOp?
    ensures Steady(Run(w, ops)) && PointsRight(Run(w, ops))
  {
    if ops != [] {
      var front, op := ops[..|ops| - 1], ops[|ops| - 1];
      RoutesPointRightOverRuns(w, front);
      var u := Run(w, front);
      assert !op.MigrateOp?;
      match op
      case CreateOp(_, _, _, _, _) => CreateSteady(u, op);
      case ScaleOp(_, _, _, _, _) => ScaleSteady(u, op);
      case StopOp(d, order, stopped) =>
        if d in u.deployments {
          HaltSteady(u, d, order, stopped, STOPPED);
        }
      case RollbackOp(_, _, _, _, _, _) => RollbackSteady(u, op);
    }
  }

  // ----- what moves a record leaves its route behind

  /** The instance is routed for its project. */
  ghost predicate IsRouted(w: World, i: string) {
    exists project :: project != "" && i in TargetsOf(w, project)
  }

  /** Only the record of `i` may differ, and the router's table does not. */
  ghost predicate OnlyMoves(w: World, v: World, i: string) {
    && v.targets == w.targets && i in w.instances && v.instances.Keys == w.instances.Keys
    && forall j :: j in w.instances && j != i ==> v.instances[j] == w.instances[j]
  }

  lemma {:induction false} MovedPointsExactly(w: World, v: World, i: string)
    requires PointsRight(w) && OnlyMoves(w, v, i)
    ensures PointsRight(v) <==> !IsRouted(w, i) || v.instances[i].worker == w.instances[i].worker
  {
    if IsRouted(w, i) && v.instances[i].worker != w.instances[i].worker {
      var project :| project != "" && i in TargetsOf(w, project);
      var k :| 0 <= k < |TargetsOf(w, project)| && TargetsOf(w, project)[k] == i;
      var t := RoutesOf(w, project)[k];
      assert t in RoutesOf(w, project) && PointsAt(w, t);
      assert t in RoutesOf(v, project) && !PointsAt(v, t);
    } else {
      forall project, x | project != "" && x in RoutesOf(v, project) ensures PointsAt(v, x) {
        assert x in RoutesOf(w, project) && PointsAt(w, x);
        var k :| 0 <= k < |RoutesOf(w, project)| && RoutesOf(w, project)[k] == x;
        assert TargetsOf(w, project)[k] == x.instance;
      }
    }
  }

  /**
   A migration leaves the route at the drained worker: routes still point right if and only if the
   instance had none.
   */
  lemma {:induction false} MigrationPointsExactly(p: Pass, i: string, from: string, a: Attempt, oldStopped: bool)
    requires Records(p.world) && PointsRight(p.world) && PickFits(p.world, i, a) && Migrates(p, i, from, a)
    ensures PointsRight(MigrateStep(p, i, from, a, oldStopped).world) <==> !IsRouted(p.world, i)
  {
    MigrateDoes(p, i, from, a, oldStopped);
    MovedPointsExactly(p.world, MigrateStep(p, i, from, a, oldStopped).world, i);
  }

  /** A repair that succeeds on another worker does the same. */
  lemma {:induction false} RepairPointsExactly(p: Pass, m: Desired, a: Attempt)
    requires NamesUnique(p.world) && IsEntry(p.world, m) && PointsRight(p.world)
    ensures PointsRight(RepairStep(p, m, a).world) <==>
              !IsRouted(p.world, m.instanceID) || Skipped(p, m, a) || !a.ran
              || RepairTarget(p.world, m, a.pick).value == p.world.instances[m.instanceID].worker
  {
    RepairMarks(p, m, a);
    RepairMoves(p, m, a);
    MovedPointsExactly(p.world, RepairStep(p, m, a).world, m.instanceID);
  }

  lemma {:induction false} RepairMoves(p: Pass, m: Desired, a: Attempt)
    requires NamesUnique(p.world) && IsEntry(p.world, m)
    ensures RepairStep(p, m, a).world.instances.Keys == p.world.instances.Keys
    ensures RepairStep(p, m, a).world.instances[m.instanceID].worker
            == if Skipped(p, m, a) || !a.ran then p.world.instances[m.instanceID].worker else RepairTarget(p.world, m, a.pick).value
  {
    assert HasKey(p.world, m.instanceKey) && ByKey(p.world, m.instanceKey) == p.world.instances[m.instanceID];
  }

  /** One routed instance whose container has been removed from outside: when its repair fails, its route stays. */
  lemma {:induction false} FailedRepairMisroutes()
    ensures exists p: Pass, m: Desired, a: Attempt ::
              && NamesUnique(p.world) && IsEntry(p.world, m) && Routed(p.world) && !Skipped(p, m, a)
              && !Routed(RepairStep(p, m, a).world)
  {
    var inst := Instance("i", "k", "d", "w", "c", Running);
    var w := World(
      map["w" := Worker("w", "wk", 1, map[], Ready, Healthy, true, 1, false)],
      map["d" := Deployment("p", "img", "", RUNNING, 1, map[])],
      map["i" := inst], map["k" := "i"], {}, map["p" := [Target("i", "w")]]);
    var p, m, a := Start(w), DesiredOf(w, "i"), Attempt(None, true, false, "");
    forall project | project != "" ensures RoutedFor(w, project) {
      assert TargetsOf(w, project) == if project == "p" then ["i"] else [];
    }
    RepairKeepsRoutesExactly(p, m, a);
  }
}
