/**
 What the service keeps over whole runs: every worker's workload counter is the number of
 records assigned to it, the router's table is the set of running instances, and a fresh
 deployment is spread evenly.
 */
module Books {
  import opened Scheduler
  import opened Diff
  import opened Cluster
  import opened Reconcile
  import opened Deployments

  // ----- invariants

  /** Live instance records assigned to a worker. */
  ghost function Assigned(w: World, k: string): set<string> {
    set i | i in w.instances && w.instances[i].worker == k && IsLive(w.instances[i].status)
  }

  /** A worker's counter is the number of live records assigned to it, and within its capacity. */
  ghost predicate Balances(w: World, k: string) {
    k in w.workers ==> w.workers[k].id == k && w.workers[k].active == |Assigned(w, k)| <= w.workers[k].capacity
  }

  ghost predicate Ledger(w: World) {
    "" !in w.workers && forall k :: k in w.workers ==> Balances(w, k)
  }

  /** Counters are never negative: the registry clamps them. */
  ghost predicate Sane(w: World) {
    "" !in w.workers && forall k :: k in w.workers ==> w.workers[k].id == k && w.workers[k].active >= 0
  }

  lemma {:induction false} LedgerIsSane(w: World)
    requires Ledger(w)
    ensures Sane(w)
  {
    forall k | k in w.workers ensures w.workers[k].id == k && w.workers[k].active >= 0 {
      assert Balances(w, k);
    }
  }

  ghost predicate Records(w: World) {
    forall i :: i in w.instances ==> w.instances[i].id == i && w.instances[i].deployment in w.deployments
  }

  /** Instance `i` is running for the project. */
  predicate RunsFor(w: World, project: string, i: string) {
    i in w.instances && w.instances[i].status == Running
    && w.instances[i].deployment in w.deployments && w.deployments[w.instances[i].deployment].project == project
  }

  ghost predicate RoutedFor(w: World, project: string) {
    NoDuplicates(TargetsOf(w, project)) && forall i :: i in TargetsOf(w, project) <==> RunsFor(w, project, i)
  }

  /** The router's table of every project is exactly its running instances, each once. */
  ghost predicate Routed(w: World) {
    forall project :: project != "" ==> RoutedFor(w, project)
  }

  /** The registry lists its workers, each as it is now, in any order. */
  ghost predicate ListsWorkers(w: World, listed: seq<Worker>) {
    forall x :: x in listed <==> x.id in w.workers && w.workers[x.id] == x
  }

  ghost predicate FreshOrder(w: World, o: Order) {
    o.id !in w.instances
  }

  // ----- one record changes

  /** The records are the same but for `i`, which has become `inst`. */
  ghost predicate OneRecord(w: World, v: World, inst: Instance) {
    v.instances == w.instances[inst.id := inst]
  }

  /** Two sets that agree but on `i`. */
  lemma {:induction false} DifferAt(a: set<string>, b: set<string>, i: string)
    requires forall j :: j != i ==> (j in a <==> j in b)
    ensures |b| == |a| + (if i in b then 1 else 0) - (if i in a then 1 else 0)
  {
    assert a - {i} == b - {i};
    assert |a| == |a - {i}| + if i in a then 1 else 0;
    assert |b| == |b - {i}| + if i in b then 1 else 0;
  }

  lemma {:induction false} AssignedAfter(w: World, v: World, inst: Instance, k: string)
    requires OneRecord(w, v, inst)
    ensures |Assigned(v, k)| == |Assigned(w, k)|
                                + (if inst.worker == k && IsLive(inst.status) then 1 else 0)
                                - (if inst.id in Assigned(w, k) then 1 else 0)
  {
    DifferAt(Assigned(w, k), Assigned(v, k), inst.id);
  }

  // ----- dispatch

  ghost function Dispatched(d: string, o: Order, t: string, ok: bool): Instance {
    if ok then NewInstance(d, o).(worker := t, container := o.containerID, status := Running)
    else NewInstance(d, o).(status := Failed)
  }

  /** What a dispatch does to records, counters and the router, and that its target is feasible. */
  ghost predicate DispatchEffect(w: World, v: World, d: string, o: Order, ok: bool, t: string) {
    && d in w.deployments && v.deployments == w.deployments && OneRecord(w, v, Dispatched(d, o, t, ok))
    && if ok then
         && t in w.workers && Feasible(w.workers[t], Requirement(d, 1, w.deployments[d].labels))
         && v.workers == w.workers[t := w.workers[t].(active := w.workers[t].active + 1)]
         && v.targets == (if w.deployments[d].project != "" then RegisterTarget(w, w.deployments[d].project, o.id, t).targets
                           else w.targets)
       else v.workers == w.workers && v.targets == w.targets
  }

  ghost function TargetOf(w: World, d: string, o: Order): string
    requires d in w.deployments
  {
    var s := Pick(CreateInstance(w, NewInstance(d, o)), d, o);
    if s.Chosen? then s.worker.id else ""
  }

  /** Whatever the scheduler picks is registered and feasible. */
  lemma {:induction false} PickIsFeasible(w: World, pending: World, d: string, o: Order)
    requires d in w.deployments && ListsWorkers(w, o.listed)
    requires pending.deployments == w.deployments && Pick(pending, d, o).Chosen?
    ensures var t := Pick(pending, d, o).worker.id;
            t in w.workers && Feasible(w.workers[t], Requirement(d, 1, w.deployments[d].labels))
  {
    SelectionSpreads(o.listed, Requirement(d, 1, w.deployments[d].labels), Counts(pending, d));
    assert Pick(pending, d, o).worker in o.listed;
  }

  lemma {:induction false} DispatchDoes(w: World, d: string, digest: string, signature: string, o: Order)
    requires d in w.deployments && ListsWorkers(w, o.listed) && Sane(w)
    ensures var p := Dispatch(w, d, digest, signature, o);
            DispatchEffect(w, p.world, d, o, p.ok, TargetOf(w, d, o))
  {
    var pending := CreateInstance(w, NewInstance(d, o));
    var s := Pick(pending, d, o);
    if s.Chosen? && o.dialed && o.ran {
      PickIsFeasible(w, pending, d, o);
      PlacedEffect(w, d, digest, signature, o, s.worker.id);
      assert Dispatch(w, d, digest, signature, o) == Progress(Placed(w, d, digest, signature, o, s.worker.id), true);
    } else {
      FailedEffect(w, d, o, TargetOf(w, d, o));
      assert Dispatch(w, d, digest, signature, o) == Progress(MarkFailed(pending, d, o), false);
    }
  }

  lemma {:induction false} PlacedEffect(w: World, d: string, digest: string, signature: string, o: Order, t: string)
    requires d in w.deployments && Sane(w) && t in w.workers
    requires Feasible(w.workers[t], Requirement(d, 1, w.deployments[d].labels))
    ensures DispatchEffect(w, Placed(w, d, digest, signature, o, t), d, o, true, t)
  {
    PlacedDoes(w, d, digest, signature, o, t);
  }

  lemma {:induction false} FailedEffect(w: World, d: string, o: Order, t: string)
    requires d in w.deployments
    ensures DispatchEffect(w, MarkFailed(CreateInstance(w, NewInstance(d, o)), d, o), d, o, false, t)
  {
    FailedDoes(w, d, o);
  }

  lemma {:induction false} FailedDoes(w: World, d: string, o: Order)
    ensures var v := MarkFailed(CreateInstance(w, NewInstance(d, o)), d, o);
            && v.deployments == w.deployments && OneRecord(w, v, Dispatched(d, o, "", false))
            && v.workers == w.workers && v.targets == w.targets
  {
    var inst := NewInstance(d, o).(status := Failed);
    assert CreateInstance(w, NewInstance(d, o)).instances[o.id := inst] == w.instances[o.id := inst];
  }

  ghost function Placed(w: World, d: string, digest: string, signature: string, o: Order, t: string): World
    requires d in w.deployments
  {
    var pending := CreateInstance(w, NewInstance(d, o));
    UpdateWorkload(Route(MarkRunning(StartContainer(pending, d, t, o, digest, signature), d, t, o), d, o.id, t), t, 1)
  }

  lemma {:induction false} PlacedDoes(w: World, d: string, digest: string, signature: string, o: Order, t: string)
    requires d in w.deployments && t in w.workers && w.workers[t].active >= 0
    ensures var v := Placed(w, d, digest, signature, o, t);
            && v.deployments == w.deployments && OneRecord(w, v, Dispatched(d, o, t, true))
            && v.workers == w.workers[t := w.workers[t].(active := w.workers[t].active + 1)]
            && v.targets == (if w.deployments[d].project != "" then RegisterTarget(w, w.deployments[d].project, o.id, t).targets
                           else w.targets)
  {
    var inst := Dispatched(d, o, t, true);
    var pending := CreateInstance(w, NewInstance(d, o));
    assert pending.instances[o.id := inst] == w.instances[o.id := inst];
  }

  lemma {:induction false} DispatchKeepsLedger(w: World, v: World, d: string, o: Order, ok: bool, t: string)
    requires Ledger(w) && FreshOrder(w, o) && DispatchEffect(w, v, d, o, ok, t)
    ensures Ledger(v)
  {
    forall k | k in v.workers ensures Balances(v, k) {
      assert Balances(w, k);
      AssignedAfter(w, v, Dispatched(d, o, t, ok), k);
    }
  }

  lemma {:induction false} DispatchKeepsProject(w: World, v: World, d: string, o: Order, ok: bool, t: string, project: string)
    requires RoutedFor(w, project) && FreshOrder(w, o) && DispatchEffect(w, v, d, o, ok, t) && project != ""
    ensures RoutedFor(v, project)
  {
    RegisterRoutes(w, project, o.id, t);
    assert !RunsFor(w, project, o.id);
    forall i ensures RunsFor(v, project, i) <==> RunsFor(w, project, i) || (ok && i == o.id && project == w.deployments[d].project) {}
  }

  lemma {:induction false} DispatchKeepsRouted(w: World, v: World, d: string, o: Order, ok: bool, t: string)
    requires Routed(w) && Records(w) && FreshOrder(w, o) && DispatchEffect(w, v, d, o, ok, t)
    ensures Routed(v) && Records(v) && (Sane(w) ==> Sane(v))
  {
    forall project | project != "" ensures RoutedFor(v, project) {
      DispatchKeepsProject(w, v, d, o, ok, t, project);
    }
  }

  /** A successful dispatch goes to a registered worker that met the rules and had a slot free. */
  lemma {:induction false} DispatchGoesToFitWorker(w: World, d: string, digest: string, signature: string, o: Order)
    requires d in w.deployments && ListsWorkers(w, o.listed) && Sane(w) && Dispatch(w, d, digest, signature, o).ok
    ensures var v := Dispatch(w, d, digest, signature, o).world;
            && o.id in v.instances && v.instances[o.id].worker in w.workers
            && MeetsRules(w.workers[v.instances[o.id].worker], 1, w.deployments[d].labels)
  {
    DispatchDoes(w, d, digest, signature, o);
    FilterKeepsTheRules([w.workers[TargetOf(w, d, o)]], Requirement(d, 1, w.deployments[d].labels), w.workers[TargetOf(w, d, o)]);
  }

  /** So a worker that is draining, unschedulable, unhealthy or full gets nothing. */
  lemma {:induction false} UnfitWorkerGetsNothing(w: World, d: string, digest: string, signature: string, o: Order, k: string)
    requires d in w.deployments && ListsWorkers(w, o.listed) && Sane(w) && Dispatch(w, d, digest, signature, o).ok
    requires k in w.workers
    requires w.workers[k].state == Draining || !w.workers[k].schedulable || w.workers[k].health == Unhealthy
             || w.workers[k].active >= w.workers[k].capacity
    ensures Dispatch(w, d, digest, signature, o).world.instances[o.id].worker != k
  {
    DispatchGoesToFitWorker(w, d, digest, signature, o);
  }

  ghost predicate OrderFits(w: World, o: Order) {
    ListsWorkers(w, o.listed) && FreshOrder(w, o)
  }

  ghost function Fitting(orders: nat -> Order): (World, nat) -> bool {
    (u: World, k: nat) => OrderFits(u, orders(k))
  }

  /** Every order comes with a listing of the workers as they are at its turn, and with a new instance ID. */
  ghost predicate OrdersFit(w: World, d: string, digest: string, signature: string, orders: nat -> Order, count: nat) {
    forall k: nat :: k < count ==> Fitting(orders)(Series(w, Placing(d, digest, signature, orders), k).world, k)
  }

  lemma {:induction false} DispatchStepLedger(w: World, d: string, digest: string, signature: string, o: Order)
    requires d in w.deployments && Ledger(w) && OrderFits(w, o)
    ensures Ledger(Dispatch(w, d, digest, signature, o).world)
  {
    LedgerIsSane(w);
    DispatchDoes(w, d, digest, signature, o);
    var q := Dispatch(w, d, digest, signature, o);
    DispatchKeepsLedger(w, q.world, d, o, q.ok, TargetOf(w, d, o));
  }

  /** What the router's guarantee needs of a world. */
  ghost predicate Agreed(w: World) {
    Routed(w) && Records(w) && Sane(w)
  }

  lemma {:induction false} DispatchStepAgreed(w: World, d: string, digest: string, signature: string, o: Order)
    requires d in w.deployments && Agreed(w) && OrderFits(w, o)
    ensures Agreed(Dispatch(w, d, digest, signature, o).world)
  {
    DispatchDoes(w, d, digest, signature, o);
    var q := Dispatch(w, d, digest, signature, o);
    DispatchKeepsRouted(w, q.world, d, o, q.ok, TargetOf(w, d, o));
  }

  lemma {:induction false} ManyKeepLedger(w: World, d: string, digest: string, signature: string,
                                          orders: nat -> Order, n: nat)
    requires d in w.deployments && Ledger(w) && OrdersFit(w, d, digest, signature, orders, n)
    ensures Ledger(DispatchMany(w, d, digest, signature, orders, n).world)
  {
    var step, inv := Placing(d, digest, signature, orders), (u: World) => Ledger(u);
    forall u, k: nat | inv(u) && Fitting(orders)(u, k) ensures inv(step(u, k).world) {
      if d in u.deployments {
        DispatchStepLedger(u, d, digest, signature, orders(k));
      }
    }
    SeriesKeeps(w, step, n, Fitting(orders), inv);
  }

  lemma {:induction false} ManyKeepAgreed(w: World, d: string, digest: string, signature: string,
                                          orders: nat -> Order, n: nat)
    requires d in w.deployments && Agreed(w) && OrdersFit(w, d, digest, signature, orders, n)
    ensures Agreed(DispatchMany(w, d, digest, signature, orders, n).world)
  {
    var step, inv := Placing(d, digest, signature, orders), (u: World) => Agreed(u);
    forall u, k: nat | inv(u) && Fitting(orders)(u, k) ensures inv(step(u, k).world) {
      if d in u.deployments {
        DispatchStepAgreed(u, d, digest, signature, orders(k));
      }
    }
    SeriesKeeps(w, step, n, Fitting(orders), inv);
  }

  // ----- writes to deployment records

  /** Only deployment records differ, none is lost, and none changes its project. */
  ghost predicate OnlyDeployments(w: World, v: World) {
    && v == w.(deployments := v.deployments)
    && forall d :: d in w.deployments ==> d in v.deployments && v.deployments[d].project == w.deployments[d].project
  }

  lemma {:induction false} DeploymentsKeepLedger(w: World, v: World)
    requires OnlyDeployments(w, v) && Ledger(w)
    ensures Ledger(v)
  {
    forall k | k in v.workers ensures Balances(v, k) {
      assert Balances(w, k);
      assert Assigned(v, k) == Assigned(w, k);
    }
  }

  lemma {:induction false} DeploymentsKeepAgreed(w: World, v: World)
    requires OnlyDeployments(w, v) && Agreed(w)
    ensures Agreed(v)
  {
    forall project | project != "" ensures RoutedFor(v, project) {
      assert RoutedFor(w, project);
      forall i ensures RunsFor(v, project, i) <==> RunsFor(w, project, i) {}
    }
  }

  // ----- stopping and retiring

  ghost function StoppedRecord(w: World, i: string): Instance
    requires i in w.instances
  {
    w.instances[i].(status := Stopped)
  }

  ghost predicate StopEffect(w: World, v: World, d: string, i: string) {
    && i in w.instances && d in w.deployments && w.instances[i].deployment == d
    && v.deployments == w.deployments && OneRecord(w, v, StoppedRecord(w, i))
    && v.targets == (if w.deployments[d].project != "" then UnregisterTarget(w, w.deployments[d].project, i).targets else w.targets)
  }

  lemma {:induction false} StopDoes(w: World, d: string, i: string, stopped: bool)
    requires Records(w) && i in w.instances && w.instances[i].deployment == d
    ensures StopEffect(w, StopInstance(w, d, i, stopped), d, i)
    ensures StopInstance(w, d, i, stopped).workers == w.workers
  {
  }

  lemma {:induction false} RetireDoes(w: World, d: string, i: string, stopped: bool)
    requires Records(w) && i in w.instances && w.instances[i].deployment == d
    ensures StopEffect(w, Retire(w, d, i, stopped), d, i)
    ensures var k := w.instances[i].worker;
            Retire(w, d, i, stopped).workers == if k != "" then UpdateWorkload(w, k, -1).workers else w.workers
  {
  }

  lemma {:induction false} StopKeepsRouted(w: World, v: World, d: string, i: string)
    requires Routed(w) && Records(w) && StopEffect(w, v, d, i)
    ensures Routed(v) && Records(v)
  {
    UnregisterRoutes(w, w.deployments[d].project, i);
    forall project | project != "" ensures RoutedFor(v, project) {
      assert RoutedFor(w, project);
      forall j ensures RunsFor(v, project, j) <==> RunsFor(w, project, j) && j != i {}
      if project != w.deployments[d].project {
        assert !RunsFor(w, project, i);
      }
    }
  }

  lemma {:induction false} RetireKeepsLedger(w: World, v: World, d: string, i: string)
    requires Ledger(w) && Records(w) && StopEffect(w, v, d, i) && IsLive(w.instances[i].status)
    requires v.workers == if w.instances[i].worker != "" then UpdateWorkload(w, w.instances[i].worker, -1).workers else w.workers
    ensures Ledger(v)
  {
    forall k | k in v.workers ensures Balances(v, k) {
      assert Balances(w, k);
      AssignedAfter(w, v, StoppedRecord(w, i), k);
    }
  }

  /** The listed IDs are instances of the deployment, each once, and those still to come are live. */
  ghost predicate LiveFrom(w: World, d: string, victims: seq<string>, n: nat) {
    NoDuplicates(victims) && forall k :: n <= k < |victims| ==>
        OfDeployment(w, d, victims[k]) && IsLive(w.instances[victims[k]].status)
  }

  predicate OfDeployment(w: World, d: string, i: string) {
    i in w.instances && w.instances[i].deployment == d
  }

  lemma {:induction false} RetireManyKeeps(w: World, d: string, victims: seq<string>, stopped: nat -> bool, n: nat)
    requires d in w.deployments && n <= |victims| && Agreed(w) && LiveFrom(w, d, victims, 0)
    ensures Agreed(RetireMany(w, d, victims, stopped, n))
    ensures LiveFrom(RetireMany(w, d, victims, stopped, n), d, victims, n)
    ensures Ledger(w) ==> Ledger(RetireMany(w, d, victims, stopped, n))
  {
    if n > 0 {
      RetireManyKeeps(w, d, victims, stopped, n - 1);
      var u, i := RetireMany(w, d, victims, stopped, n - 1), victims[n - 1];
      var v := Retire(u, d, i, stopped(n - 1));
      assert OfDeployment(u, d, i);
      RetireDoes(u, d, i, stopped(n - 1));
      StopKeepsRouted(u, v, d, i);
      if Ledger(u) {
        RetireKeepsLedger(u, v, d, i);
      }
      forall k | n <= k < |victims| ensures OfDeployment(v, d, victims[k]) && IsLive(v.instances[victims[k]].status) {
        assert OfDeployment(u, d, victims[k]);
        assert victims[k] != i;
      }
    }
  }

  ghost predicate AllOf(w: World, d: string, order: seq<string>) {
    forall k :: 0 <= k < |order| ==> OfDeployment(w, d, order[k])
  }

  lemma {:induction false} StopManyKeeps(w: World, d: string, order: seq<string>, stopped: nat -> bool, n: nat)
    requires d in w.deployments && n <= |order| && Agreed(w) && AllOf(w, d, order)
    ensures Agreed(StopMany(w, d, order, stopped, n)) && AllOf(StopMany(w, d, order, stopped, n), d, order)
  {
    if n > 0 {
      StopManyKeeps(w, d, order, stopped, n - 1);
      var u, i := StopMany(w, d, order, stopped, n - 1), order[n - 1];
      var v := StopInstance(u, d, i, stopped(n - 1));
      assert OfDeployment(u, d, i);
      StopDoes(u, d, i, stopped(n - 1));
      StopKeepsRouted(u, v, d, i);
      forall k | 0 <= k < |order| ensures OfDeployment(v, d, order[k]) {
        assert OfDeployment(u, d, order[k]);
      }
    }
  }
}
