/**
 Whole runs of the service: any sequence of creating, scaling, migrating, stopping and
 rolling back, one operation at a time and with any calls failing.
 */
module ServiceRuns {
  import opened Wrappers
  import opened Scheduler
  import opened Diff
  import opened Cluster
  import opened Reconcile
  import opened Deployments
  import opened Books

  // ----- drain migration

  /** The scheduler's answer, if it names a registered worker, names a feasible one (see SelectionSpreads). */
  ghost predicate PickFits(w: World, i: string, a: Attempt) {
    a.pick.Some? && a.pick.value in w.workers && i in w.instances && w.instances[i].deployment in w.deployments ==>
      Feasible(w.workers[a.pick.value], Requirement(w.instances[i].deployment, 1, w.deployments[w.instances[i].deployment].labels))
  }

  /** The scheduler's own answer over the registry's listing does. */
  lemma {:induction false} SchedulerPickFits(w: World, listed: seq<Worker>, i: string, a: Attempt)
    requires i in w.instances && w.instances[i].deployment in w.deployments && ListsWorkers(w, listed)
    requires var d := w.instances[i].deployment;
             var s := SelectWorker(listed, Requirement(d, 1, w.deployments[d].labels), Counts(w, d));
             a.pick == if s.Chosen? then Some(s.worker.id) else None
    ensures PickFits(w, i, a)
  {
    var d := w.instances[i].deployment;
    SelectionSpreads(listed, Requirement(d, 1, w.deployments[d].labels), Counts(w, d));
  }

  /** And it is never a worker that is draining, unschedulable, unhealthy or full. */
  lemma {:induction false} UnfitWorkerIsNotPicked(w: World, i: string, a: Attempt)
    requires PickFits(w, i, a) && i in w.instances && w.instances[i].deployment in w.deployments
    requires a.pick.Some? && a.pick.value in w.workers
    ensures var x := w.workers[a.pick.value];
            x.state == Ready && x.schedulable && x.health != Unhealthy && x.active < x.capacity
  {
    var d := w.instances[i].deployment;
    FilterKeepsTheRules([w.workers[a.pick.value]], Requirement(d, 1, w.deployments[d].labels), w.workers[a.pick.value]);
  }

  ghost predicate Migrates(p: Pass, i: string, from: string, a: Attempt) {
    && i in p.world.instances && from in p.world.workers && p.world.workers[from].state == Draining
    && p.world.instances[i].worker == from && p.world.instances[i].status == Running
    && p.world.instances[i].deployment in p.world.deployments
    && a.pick.Some? && a.pick.value in p.world.workers && a.dialed && a.ran
  }

  ghost predicate MigrateEffect(w: World, v: World, i: string, from: string, a: Attempt) {
    && i in w.instances && a.pick.Some? && v.deployments == w.deployments && v.targets == w.targets
    && OneRecord(w, v, w.instances[i].(worker := a.pick.value, container := a.newID))
    && v.workers == UpdateWorkload(UpdateWorkload(w, a.pick.value, 1), from, -1).workers
  }

  lemma {:induction false} MigrateDoes(p: Pass, i: string, from: string, a: Attempt, oldStopped: bool)
    requires Records(p.world)
    ensures var q := MigrateStep(p, i, from, a, oldStopped);
            if Migrates(p, i, from, a) then MigrateEffect(p.world, q.world, i, from, a) else q.world == p.world
  {
    if Migrates(p, i, from, a) {
      var w, q := p.world, MigrateStep(p, i, from, a, oldStopped);
      assert w.instances[i].id == i;
      assert q.world.workers == UpdateWorkload(UpdateWorkload(w, a.pick.value, 1), from, -1).workers;
    }
  }

  lemma {:induction false} MigrateKeepsLedger(w: World, v: World, i: string, from: string, a: Attempt)
    requires Ledger(w) && Records(w) && MigrateEffect(w, v, i, from, a) && PickFits(w, i, a)
    requires from in w.workers && w.workers[from].state == Draining && a.pick.value in w.workers
    requires w.instances[i].worker == from && w.instances[i].status == Running
    ensures Ledger(v)
  {
    var inst := w.instances[i].(worker := a.pick.value, container := a.newID);
    assert i in Assigned(w, from);
    assert Balances(w, from) && Balances(w, a.pick.value);
    forall k | k in v.workers ensures Balances(v, k) {
      assert Balances(w, k);
      AssignedAfter(w, v, inst, k);
    }
  }

  lemma {:induction false} MigrateKeepsAgreed(w: World, v: World, i: string, from: string, a: Attempt)
    requires Agreed(w) && MigrateEffect(w, v, i, from, a)
    ensures Agreed(v)
  {
    forall project | project != "" ensures RoutedFor(v, project) {
      assert RoutedFor(w, project);
      forall j ensures RunsFor(v, project, j) <==> RunsFor(w, project, j) {}
    }
  }

  ghost function RunningOf(w: World, d: string): set<string> {
    set i | i in w.instances && w.instances[i].deployment == d && w.instances[i].status == Running
  }

  ghost predicate NoContainer(w: World, worker: string, key: string) {
    forall c :: c in w.containers ==> !(c.worker == worker && c.key == key)
  }

  ghost predicate HasReplica(w: World, worker: string, key: string) {
    exists c :: c in w.containers && c.worker == worker && c.key == key && c.state == "running"
  }

  /**
   A migration never costs a replica: no deployment's running records change, the
   replacement is asked for before the old container is stopped, it is still running on its
   new worker when the step is over, and an old container that was stopped is gone.
   */
  lemma {:induction false} MigrationKeepsReplicas(p: Pass, i: string, from: string, a: Attempt, oldStopped: bool)
    requires Records(p.world) && Sane(p.world) && PickFits(p.world, i, a)
    ensures var q := MigrateStep(p, i, from, a, oldStopped);
            && (forall d :: RunningOf(q.world, d) == RunningOf(p.world, d))
            && (Migrates(p, i, from, a) ==>
                  && q.calls == p.calls + [RunCall(a.pick.value, p.world.instances[i].key), StopCall(from, p.world.instances[i].key)]
                  && q.world.instances[i].worker == a.pick.value != from
                  && HasReplica(q.world, a.pick.value, p.world.instances[i].key)
                  && (oldStopped ==> NoContainer(q.world, from, p.world.instances[i].key)))
            && (!Migrates(p, i, from, a) ==> q.world == p.world)
  {
    MigrateDoes(p, i, from, a, oldStopped);
    if Migrates(p, i, from, a) {
      var w, q := p.world, MigrateStep(p, i, from, a, oldStopped);
      var inst, dep := w.instances[i], w.deployments[w.instances[i].deployment];
      var c := NewContainer(a.pick.value, a.newID, inst.key, inst.deployment, dep.image, dep.labels);
      assert a.pick.value != from;
      assert c in q.world.containers;
    }
  }

  // ----- operations

  datatype Op =
    | CreateOp(d: string, dep: Deployment, build: Build, signature: string, orders: nat -> Order)
    | ScaleOp(d: string, target: int, active: seq<string>, orders: nat -> Order, stopped: nat -> bool)
    | MigrateOp(i: string, from: string, attempt: Attempt, oldStopped: bool)
    | StopOp(d: string, order: seq<string>, stopped: nat -> bool)
    | RollbackOp(d: string, successor: string, releases: seq<Release>, orders: nat -> Order, order: seq<string>, stopped: nat -> bool)

  function Apply(w: World, op: Op): World {
    match op
    case CreateOp(d, dep, build, signature, orders) => Create(w, d, dep, build, signature, orders).world
    case ScaleOp(d, target, active, orders, stopped) => Scale(w, d, target, active, orders, stopped).world
    case MigrateOp(i, from, attempt, oldStopped) => MigrateStep(Start(w), i, from, attempt, oldStopped).world
    case StopOp(d, order, stopped) => StopDeployment(w, d, order, stopped)
    case RollbackOp(d, successor, releases, orders, order, stopped) => Rollback(w, d, successor, releases, orders, order, stopped).world
  }

  ghost predicate PipelineFits(w: World, d: string, signature: string, orders: nat -> Order) {
    d in w.deployments
    && OrdersFit(SetStatus(SetStatus(w, d, SCHEDULING), d, STARTING), d, w.deployments[d].digest, signature, orders, Want(w, d))
  }

  /** The list is of all live instances of the deployment, each once. */
  ghost predicate ListsLive(w: World, d: string, active: seq<string>) {
    LiveFrom(w, d, active, 0) && forall i :: i in LiveOf(w, d) ==> i in active
  }

  ghost function LiveOf(w: World, d: string): set<string> {
    set i | i in w.instances && w.instances[i].deployment == d && IsLive(w.instances[i].status)
  }

  /** New names are new and every listing shows the records as they are at its turn. */
  ghost predicate Fits(w: World, op: Op) {
    match op
    case CreateOp(d, dep, build, signature, orders) =>
      d !in w.deployments
      && (var p := BuildPhase(CreateDeployment(w, d, dep), d, build); p.ok ==>
          PipelineFits(p.world, d, signature, orders))
    case ScaleOp(d, target, active, orders, stopped) =>
      d in w.deployments ==>
        ListsLive(w, d, active) && (target > |active| ==>
            OrdersFit(w, d, w.deployments[d].digest, "", orders, target - |active|))
    case MigrateOp(i, from, attempt, oldStopped) => PickFits(w, i, attempt)
    case StopOp(d, order, stopped) => d in w.deployments ==> AllOf(w, d, order)
    case RollbackOp(d, successor, releases, orders, order, stopped) =>
      && successor !in w.deployments
      && (d in w.deployments && PreviousRelease(w, d, releases).Some? ==>
            var r := PreviousRelease(w, d, releases).value;
            var started := CreateDeployment(w, successor, RollbackRecord(w, d, r));
            && PipelineFits(started, successor, r.signature, orders)
            && AllOf(ScheduleAndDispatch(started, successor, r.signature, orders).world, d, order))
  }

  // ----- each operation keeps the invariants

  lemma {:induction false} PipelineKeeps(w: World, d: string, signature: string, orders: nat -> Order)
    requires d in w.deployments && PipelineFits(w, d, signature, orders) && Agreed(w)
    ensures Agreed(ScheduleAndDispatch(w, d, signature, orders).world)
    ensures Ledger(w) ==> Ledger(ScheduleAndDispatch(w, d, signature, orders).world)
  {
    var starting := SetStatus(SetStatus(w, d, SCHEDULING), d, STARTING);
    var p := DispatchMany(starting, d, w.deployments[d].digest, signature, orders, Want(w, d));
    var v := ScheduleAndDispatch(w, d, signature, orders).world;
    DeploymentsKeepAgreed(w, starting);
    ManyKeepAgreed(starting, d, w.deployments[d].digest, signature, orders, Want(w, d));
    DeploymentsKeepAgreed(p.world, v);
    if Ledger(w) {
      DeploymentsKeepLedger(w, starting);
      ManyKeepLedger(starting, d, w.deployments[d].digest, signature, orders, Want(w, d));
      DeploymentsKeepLedger(p.world, v);
    }
  }

  lemma {:induction false} BuildIsOnlyDeployments(w: World, d: string, dep: Deployment, b: Build)
    requires d !in w.deployments
    ensures OnlyDeployments(w, BuildPhase(CreateDeployment(w, d, dep), d, b).world)
  {
  }

  lemma {:induction false} CreateKeeps(w: World, op: Op)
    requires op.CreateOp? && Fits(w, op) && Agreed(w)
    ensures Agreed(Apply(w, op)) && (Ledger(w) ==> Ledger(Apply(w, op)))
  {
    var created := CreateDeployment(w, op.d, op.dep);
    var p := BuildPhase(created, op.d, op.build);
    BuildIsOnlyDeployments(w, op.d, op.dep, op.build);
    DeploymentsKeepAgreed(w, p.world);
    if Ledger(w) {
      DeploymentsKeepLedger(w, p.world);
    }
    if p.ok {
      PipelineKeeps(p.world, op.d, op.signature, op.orders);
    }
  }

  lemma {:induction false} SuffixLive(w: World, d: string, active: seq<string>, n: nat)
    requires LiveFrom(w, d, active, 0) && n <= |active|
    ensures LiveFrom(w, d, active[n..], 0)
  {
  }

  lemma {:induction false} ScaleKeeps(w: World, op: Op)
    requires op.ScaleOp? && Fits(w, op) && Agreed(w)
    ensures Agreed(Apply(w, op)) && (Ledger(w) ==> Ledger(Apply(w, op)))
  {
    var d, v := op.d, Apply(w, op);
    if op.target <= 0 || d !in w.deployments || w.deployments[d].status != RUNNING {
    } else if op.target >= |op.active| {
      var digest, n := w.deployments[d].digest, op.target - |op.active|;
      assert OrdersFit(w, d, digest, "", op.orders, n);
      ManyKeepAgreed(w, d, digest, "", op.orders, n);
      var p := DispatchMany(w, d, digest, "", op.orders, n);
      DeploymentsKeepAgreed(p.world, SetCount(p.world, d, op.target));
      if Ledger(w) {
        ManyKeepLedger(w, d, digest, "", op.orders, n);
        DeploymentsKeepLedger(p.world, SetCount(p.world, d, op.target));
      }
    } else {
      var victims := op.active[op.target..];
      SuffixLive(w, d, op.active, op.target);
      RetireManyKeeps(w, d, victims, op.stopped, |victims|);
      var u := RetireMany(w, d, victims, op.stopped, |victims|);
      DeploymentsKeepAgreed(u, v);
      if Ledger(w) {
        DeploymentsKeepLedger(u, v);
      }
    }
  }

  lemma {:induction false} MigrateKeeps(w: World, op: Op)
    requires op.MigrateOp? && Fits(w, op) && Agreed(w)
    ensures Agreed(Apply(w, op)) && (Ledger(w) ==> Ledger(Apply(w, op)))
  {
    MigrateDoes(Start(w), op.i, op.from, op.attempt, op.oldStopped);
    if Migrates(Start(w), op.i, op.from, op.attempt) {
      MigrateKeepsAgreed(w, Apply(w, op), op.i, op.from, op.attempt);
      if Ledger(w) {
        MigrateKeepsLedger(w, Apply(w, op), op.i, op.from, op.attempt);
      }
    }
  }

  lemma {:induction false} StopKeeps(w: World, op: Op)
    requires op.StopOp? && Fits(w, op) && Agreed(w)
    ensures Agreed(Apply(w, op))
  {
    if op.d in w.deployments {
      StopManyKeeps(w, op.d, op.order, op.stopped, |op.order|);
      DeploymentsKeepAgreed(StopMany(w, op.d, op.order, op.stopped, |op.order|), Apply(w, op));
    }
  }

  lemma {:induction false} RollbackKeeps(w: World, op: Op)
    requires op.RollbackOp? && Fits(w, op) && Agreed(w)
    ensures Agreed(Apply(w, op))
  {
    var d, r := op.d, PreviousRelease(w, op.d, op.releases);
    if d in w.deployments && w.deployments[d].status != ROLLED_BACK && r.Some? {
      var started := CreateDeployment(w, op.successor, RollbackRecord(w, d, r.value));
      assert OnlyDeployments(w, started);
      DeploymentsKeepAgreed(w, started);
      PipelineKeeps(started, op.successor, r.value.signature, op.orders);
      var p := ScheduleAndDispatch(started, op.successor, r.value.signature, op.orders);
      if p.ok {
        StopManyKeeps(p.world, d, op.order, op.stopped, |op.order|);
        DeploymentsKeepAgreed(StopMany(p.world, d, op.order, op.stopped, |op.order|), Apply(w, op));
      }
    }
  }

  // ----- whole runs

  function Run(w: World, ops: seq<Op>): World {
    if ops == [] then w else Apply(Run(w, ops[..|ops| - 1]), ops[|ops| - 1])
  }

  ghost predicate AllFit(w: World, ops: seq<Op>) {
    ops == [] || (AllFit(w, ops[..|ops| - 1]) && Fits(Run(w, ops[..|ops| - 1]), ops[|ops| - 1]))
  }

  /**
   Router agreement: after every operation of any run, even one that failed midway, every
   project's target list has no duplicates and holds exactly its running instances.
   */
  lemma {:induction false} RouterAgreesOverRuns(w: World, ops: seq<Op>)
    requires Agreed(w) && AllFit(w, ops)
    ensures Agreed(Run(w, ops)) && Routed(Run(w, ops))
  {
    if ops != [] {
      var front, op := ops[..|ops| - 1], ops[|ops| - 1];
      RouterAgreesOverRuns(w, front);
      var u := Run(w, front);
      match op
      case CreateOp(_, _, _, _, _) => CreateKeeps(u, op);
      case ScaleOp(_, _, _, _, _) => ScaleKeeps(u, op);
      case MigrateOp(_, _, _, _) => MigrateKeeps(u, op);
      case StopOp(_, _, _) => StopKeeps(u, op);
      case RollbackOp(_, _, _, _, _, _) => RollbackKeeps(u, op);
    }
  }

  ghost predicate KeepsBooks(op: Op) {
    op.CreateOp? || op.ScaleOp? || op.MigrateOp?
  }

  /**
   Workload accounting: over any run of creating, scaling and migrating, partial failures
   included, every worker's counter equals its live assigned records and stays within capacity.
   */
  lemma {:induction false} AccountsBalanceOverRuns(w: World, ops: seq<Op>)
    requires Ledger(w) && Agreed(w) && AllFit(w, ops)
    requires forall n :: 0 <= n < |ops| ==> KeepsBooks(ops[n])
    ensures Ledger(Run(w, ops)) && Agreed(Run(w, ops))
  {
    if ops != [] {
      var front, op := ops[..|ops| - 1], ops[|ops| - 1];
      AccountsBalanceOverRuns(w, front);
      var u := Run(w, front);
      assert KeepsBooks(op);
      if op.CreateOp? {
        CreateKeeps(u, op);
      } else if op.ScaleOp? {
        ScaleKeeps(u, op);
      } else {
        MigrateKeeps(u, op);
      }
    }
  }
}
