/**
 Where instances go: a successful scale ends at its target, stopping forgets the workload
 counters, and the instances of a fresh deployment are spread evenly.
 */
module Placement {
  import opened Scheduler
  import opened Diff
  import opened Cluster
  import opened Reconcile
  import opened Deployments
  import opened Books
  import opened ServiceRuns

  // ----- a successful scale reaches its target

  lemma {:induction false} LiveAfter(w: World, v: World, inst: Instance, d: string)
    requires OneRecord(w, v, inst)
    ensures |LiveOf(v, d)| == |LiveOf(w, d)|
                              + (if inst.deployment == d && IsLive(inst.status) then 1 else 0)
                              - (if inst.id in LiveOf(w, d) then 1 else 0)
  {
    DifferAt(LiveOf(w, d), LiveOf(v, d), inst.id);
  }

  lemma {:induction false} DispatchAddsOne(w: World, d: string, digest: string, signature: string, o: Order)
    requires d in w.deployments && Agreed(w) && OrderFits(w, o) && Dispatch(w, d, digest, signature, o).ok
    ensures |LiveOf(Dispatch(w, d, digest, signature, o).world, d)| == |LiveOf(w, d)| + 1
  {
    DispatchDoes(w, d, digest, signature, o);
    LiveAfter(w, Dispatch(w, d, digest, signature, o).world, Dispatched(d, o, TargetOf(w, d, o), true), d);
  }

  /** If every step that succeeds adds one, a series of `n` that succeeds adds `n`. */
  lemma {:induction false} SeriesAdds(w: World, step: (World, nat) -> Progress, n: nat,
                                      fits: (World, nat) -> bool, inv: World -> bool, size: World -> int)
    requires inv(w) && forall k: nat :: k < n ==> fits(Series(w, step, k).world, k)
    requires forall u, k: nat :: inv(u) && fits(u, k) ==>
          inv(step(u, k).world) && (step(u, k).ok ==> size(step(u, k).world) == size(u) + 1)
    ensures inv(Series(w, step, n).world)
    ensures Series(w, step, n).ok ==> size(Series(w, step, n).world) == size(w) + n
  {
    if n > 0 {
      SeriesAdds(w, step, n - 1, fits, inv, size);
    }
  }

  lemma {:induction false} DispatchManyAdds(w: World, d: string, digest: string, signature: string,
                                            orders: nat -> Order, n: nat)
    requires d in w.deployments && Agreed(w) && OrdersFit(w, d, digest, signature, orders, n)
    requires DispatchMany(w, d, digest, signature, orders, n).ok
    ensures |LiveOf(DispatchMany(w, d, digest, signature, orders, n).world, d)| == |LiveOf(w, d)| + n
  {
    var step := Placing(d, digest, signature, orders);
    var inv, size := (u: World) => d in u.deployments && Agreed(u), (u: World) => |LiveOf(u, d)|;
    forall u, k: nat | inv(u) && Fitting(orders)(u, k)
      ensures inv(step(u, k).world) && (step(u, k).ok ==> size(step(u, k).world) == size(u) + 1)
    {
      AddsOne(u, d, digest, signature, orders(k));
    }
    SeriesAdds(w, step, n, Fitting(orders), inv, size);
  }

  lemma {:induction false} AddsOne(u: World, d: string, digest: string, signature: string, o: Order)
    requires d in u.deployments && Agreed(u) && OrderFits(u, o)
    ensures var p := Dispatch(u, d, digest, signature, o);
            d in p.world.deployments && Agreed(p.world) && (p.ok ==> |LiveOf(p.world, d)| == |LiveOf(u, d)| + 1)
  {
    DispatchKeepsDeployments(u, d, digest, signature, o);
    DispatchStepAgreed(u, d, digest, signature, o);
    if Dispatch(u, d, digest, signature, o).ok {
      DispatchAddsOne(u, d, digest, signature, o);
    }
  }

  lemma {:induction false} RetireManyRemoves(w: World, d: string, victims: seq<string>, stopped: nat -> bool, n: nat)
    requires d in w.deployments && n <= |victims| && Agreed(w) && LiveFrom(w, d, victims, 0)
    ensures |LiveOf(RetireMany(w, d, victims, stopped, n), d)| == |LiveOf(w, d)| - n
  {
    if n > 0 {
      RetireManyRemoves(w, d, victims, stopped, n - 1);
      RetireManyKeeps(w, d, victims, stopped, n - 1);
      var u, i := RetireMany(w, d, victims, stopped, n - 1), victims[n - 1];
      assert OfDeployment(u, d, i);
      RetireDoes(u, d, i, stopped(n - 1));
      LiveAfter(u, Retire(u, d, i, stopped(n - 1)), StoppedRecord(u, i), d);
    }
  }

  /** A list without duplicates is as long as the set it lists. */
  lemma {:induction false} ListSize(list: seq<string>, s: set<string>)
    requires NoDuplicates(list) && forall i :: i in s <==> i in list
    ensures |s| == |list|
    decreases |list|
  {
    if list == [] {
      assert s == {};
    } else {
      var last, front := list[|list| - 1], list[..|list| - 1];
      assert last !in front;
      forall i ensures i in s - {last} <==> i in front {
        assert i in list <==> i in front || i == last;
      }
      ListSize(front, s - {last});
      assert s == (s - {last}) + {last};
    }
  }

  lemma {:induction false} LiveListSize(w: World, d: string, active: seq<string>)
    requires ListsLive(w, d, active)
    ensures |LiveOf(w, d)| == |active|
  {
    forall i | i in active ensures i in LiveOf(w, d) {
      var k :| 0 <= k < |active| && active[k] == i;
      assert OfDeployment(w, d, active[k]);
    }
    ListSize(active, LiveOf(w, d));
  }

  /** After a successful scale, up or down, live records = recorded count = target. */
  lemma {:induction false} ScaleReachesTarget(w: World, d: string, target: int, active: seq<string>,
                                              orders: nat -> Order, stopped: nat -> bool)
    requires Agreed(w) && Fits(w, ScaleOp(d, target, active, orders, stopped))
    requires Scale(w, d, target, active, orders, stopped).ok
    ensures var v := Scale(w, d, target, active, orders, stopped).world;
            d in v.deployments && |LiveOf(v, d)| == v.deployments[d].count == target
  {
    LiveListSize(w, d, active);
    var v := Scale(w, d, target, active, orders, stopped).world;
    if target >= |active| {
      var digest, n := w.deployments[d].digest, target - |active|;
      assert OrdersFit(w, d, digest, "", orders, n);
      DispatchManyAdds(w, d, digest, "", orders, n);
      assert LiveOf(v, d) == LiveOf(DispatchMany(w, d, digest, "", orders, n).world, d);
    } else {
      var victims := active[target..];
      SuffixLive(w, d, active, target);
      RetireManyRemoves(w, d, victims, stopped, |victims|);
      assert LiveOf(v, d) == LiveOf(RetireMany(w, d, victims, stopped, |victims|), d);
    }
  }

  // ----- stopping a deployment does not give its slots back

  ghost predicate Halted(w: World, v: World, order: seq<string>) {
    && v.workers == w.workers && v.instances.Keys == w.instances.Keys
    && forall i :: i in w.instances ==> v.instances[i] == if i in order then w.instances[i].(status := Stopped) else w.instances[i]
  }

  lemma {:induction false} StopManyHalts(w: World, d: string, order: seq<string>, stopped: nat -> bool, n: nat)
    requires d in w.deployments && n <= |order| && Agreed(w) && AllOf(w, d, order)
    ensures Halted(w, StopMany(w, d, order, stopped, n), order[..n])
  {
    if n > 0 {
      StopManyHalts(w, d, order, stopped, n - 1);
      StopManyKeeps(w, d, order, stopped, n - 1);
      var u, i := StopMany(w, d, order, stopped, n - 1), order[n - 1];
      assert OfDeployment(u, d, i);
      StopDoes(u, d, i, stopped(n - 1));
      assert order[..n] == order[..n - 1] + [i];
      OneMoreHalted(w, u, StopInstance(u, d, i, stopped(n - 1)), d, order[..n - 1], i);
    }
  }

  lemma {:induction false} OneMoreHalted(w: World, u: World, v: World, d: string, done: seq<string>, i: string)
    requires Halted(w, u, done) && i in u.instances && u.instances[i].id == i && StopEffect(u, v, d, i)
    requires v.workers == u.workers
    ensures Halted(w, v, done + [i])
  {
  }

  /** A live instance of the deployment holds a slot of a registered worker. */
  ghost predicate HoldsSlot(w: World, d: string) {
    exists i :: i in LiveOf(w, d) && w.instances[i].worker in w.workers
  }

  /**
   Stopping a whole deployment leaves the books balanced exactly when none of its live
   instances held a slot: the counters are never lowered.
   */
  lemma {:induction false} StopLeaksExactlyHeldSlots(w: World, d: string, order: seq<string>, stopped: nat -> bool)
    requires d in w.deployments && Agreed(w) && Ledger(w) && AllOf(w, d, order)
    requires forall i :: OfDeployment(w, d, i) ==> i in order
    ensures Ledger(StopDeployment(w, d, order, stopped)) <==> !HoldsSlot(w, d)
  {
    StopManyHalts(w, d, order, stopped, |order|);
    assert order[..|order|] == order;
    var v := StopDeployment(w, d, order, stopped);
    forall k ensures Assigned(v, k) == Assigned(w, k) - LiveOf(w, d) {
      forall i | i in w.instances ensures i in order <==> w.instances[i].deployment == d {
        if i in order {
          var n :| 0 <= n < |order| && order[n] == i;
          assert OfDeployment(w, d, order[n]);
        } else {
          assert !OfDeployment(w, d, i);
        }
      }
    }
    if HoldsSlot(w, d) {
      var i :| i in LiveOf(w, d) && w.instances[i].worker in w.workers;
      var k := w.instances[i].worker;
      assert Balances(w, k);
      assert i in Assigned(w, k);
      StrictlyFewer(Assigned(v, k), Assigned(w, k), i);
      assert !Balances(v, k);
    } else {
      forall k | k in v.workers ensures Balances(v, k) {
        assert Balances(w, k);
        assert Assigned(v, k) == Assigned(w, k);
      }
    }
  }

  /** One instance dispatched and the deployment stopped: the worker's slot is lost. */
  lemma {:induction false} StopAfterDispatchLeaks(w: World, d: string, digest: string, signature: string, o: Order,
                                                  order: seq<string>, stopped: nat -> bool)
    requires d in w.deployments && Ledger(w) && Agreed(w) && OrderFits(w, o) && Dispatch(w, d, digest, signature, o).ok
    requires var v := Dispatch(w, d, digest, signature, o).world;
             AllOf(v, d, order) && forall i :: OfDeployment(v, d, i) ==> i in order
    ensures !Ledger(StopDeployment(Dispatch(w, d, digest, signature, o).world, d, order, stopped))
  {
    var v := Dispatch(w, d, digest, signature, o).world;
    DispatchHolds(w, d, digest, signature, o);
    DispatchStepLedger(w, d, digest, signature, o);
    DispatchStepAgreed(w, d, digest, signature, o);
    StopLeaksExactlyHeldSlots(v, d, order, stopped);
  }

  lemma {:induction false} DispatchHolds(w: World, d: string, digest: string, signature: string, o: Order)
    requires d in w.deployments && Agreed(w) && OrderFits(w, o) && Dispatch(w, d, digest, signature, o).ok
    ensures var v := Dispatch(w, d, digest, signature, o).world; d in v.deployments && HoldsSlot(v, d)
  {
    var v := Dispatch(w, d, digest, signature, o).world;
    DispatchDoes(w, d, digest, signature, o);
    assert o.id in LiveOf(v, d) && v.instances[o.id].worker in v.workers;
  }

  lemma {:induction false} StrictlyFewer(a: set<string>, b: set<string>, i: string)
    requires a <= b && i in b && i !in a
    ensures |a| < |b|
  {
    if |a| >= |b| {
      assert a + {i} <= b;
      Subset(a + {i}, b);
    }
  }

  lemma {:induction false} Subset(a: set<string>, b: set<string>)
    requires a <= b
    ensures |a| <= |b|
  {
    assert b == a + (b - a);
  }

  // ----- balanced spread

  /** Worker keys are apart from worker IDs, and records name workers by ID. */
  ghost predicate KeysApart(w: World) {
    && Sane(w)
    && (forall j, k :: j in w.workers && k in w.workers ==> w.workers[k].key != j && w.workers[k].key != "")
    && (forall i, k :: i in w.instances && k in w.workers ==> w.instances[i].worker != w.workers[k].key)
  }

  function Needs(w: World, d: string): Requirement
    requires d in w.deployments
  {
    Requirement(d, 1, w.deployments[d].labels)
  }

  /** No worker holds more than one instance of the deployment above any worker that could still take one. */
  ghost predicate Spread(w: World, d: string) {
    d in w.deployments
    && forall j, k :: j in w.workers && k in w.workers && Feasible(w.workers[k], Needs(w, d)) ==>
         |OnWorker(w, d, j)| <= |OnWorker(w, d, k)| + 1
  }

  /** The scheduler's count for a worker is the number of the deployment's records on it. */
  lemma {:induction false} CountIsOnWorker(w: World, d: string, x: Worker)
    requires x.id != "" && forall i :: i in w.instances ==> w.instances[i].worker != x.key
    ensures CountOn(Counts(w, d), x) == |OnWorker(w, d, x.id)|
  {
    var counts := Counts(w, d);
    assert x.key !in counts;
    if x.id !in counts {
      assert OnWorker(w, d, x.id) == {};
    }
  }

  lemma {:induction false} PendingCounts(w: World, d: string, o: Order, k: string)
    requires FreshOrder(w, o) && k != ""
    ensures OnWorker(CreateInstance(w, NewInstance(d, o)), d, k) == OnWorker(w, d, k)
  {
  }

  /** The chosen worker holds no more of the deployment than any feasible one. */
  lemma {:induction false} ChosenHoldsFewest(w: World, d: string, digest: string, signature: string, o: Order,
                                             k: string)
    requires KeysApart(w) && d in w.deployments && OrderFits(w, o) && Dispatch(w, d, digest, signature, o).ok
    requires k in w.workers && Feasible(w.workers[k], Needs(w, d))
    ensures TargetOf(w, d, o) in w.workers
    ensures |OnWorker(w, d, TargetOf(w, d, o))| <= |OnWorker(w, d, k)|
  {
    var pending := CreateInstance(w, NewInstance(d, o));
    var c, x := Pick(pending, d, o).worker, w.workers[k];
    SelectionSpreads(o.listed, Needs(w, d), Counts(pending, d));
    assert c in o.listed && x in o.listed;
    CountOfListed(w, d, o, c.id);
    CountOfListed(w, d, o, k);
  }

  lemma {:induction false} CountOfListed(w: World, d: string, o: Order, k: string)
    requires KeysApart(w) && FreshOrder(w, o) && k in w.workers
    ensures CountOn(Counts(CreateInstance(w, NewInstance(d, o)), d), w.workers[k]) == |OnWorker(w, d, k)|
  {
    CountIsOnWorker(CreateInstance(w, NewInstance(d, o)), d, w.workers[k]);
    PendingCounts(w, d, o, k);
  }

  lemma {:induction false} OnWorkerAfter(w: World, v: World, inst: Instance, d: string, k: string)
    requires OneRecord(w, v, inst) && inst.id !in w.instances
    ensures |OnWorker(v, d, k)| == |OnWorker(w, d, k)| + if inst.deployment == d && inst.worker == k then 1 else 0
  {
    DifferAt(OnWorker(w, d, k), OnWorker(v, d, k), inst.id);
  }

  ghost predicate Spreading(w: World, d: string) {
    KeysApart(w) && Spread(w, d)
  }

  /** No feasible worker holds fewer than `t`. */
  ghost predicate Fewest(w: World, d: string, t: string)
    requires d in w.deployments
  {
    forall k :: k in w.workers && Feasible(w.workers[k], Needs(w, d)) ==> |OnWorker(w, d, t)| <= |OnWorker(w, d, k)|
  }

  lemma {:induction false} PairStaysSpread(w: World, v: World, d: string, o: Order, ok: bool, t: string,
                                           j: string, k: string)
    requires Spread(w, d) && FreshOrder(w, o) && DispatchEffect(w, v, d, o, ok, t) && (ok ==> Fewest(w, d, t))
    requires j in w.workers && k in w.workers && Feasible(v.workers[k], Needs(v, d)) && "" !in w.workers
    ensures |OnWorker(v, d, j)| <= |OnWorker(v, d, k)| + 1
  {
    OnWorkerAfter(w, v, Dispatched(d, o, t, ok), d, j);
    OnWorkerAfter(w, v, Dispatched(d, o, t, ok), d, k);
    assert Feasible(w.workers[k], Needs(w, d));
  }

  lemma {:induction false} EffectSpreads(w: World, v: World, d: string, o: Order, ok: bool, t: string)
    requires Spreading(w, d) && FreshOrder(w, o) && DispatchEffect(w, v, d, o, ok, t) && (ok ==> Fewest(w, d, t))
    ensures Spreading(v, d)
  {
    EffectKeepsApart(w, v, d, o, ok, t);
    forall j, k | j in v.workers && k in v.workers && Feasible(v.workers[k], Needs(v, d))
      ensures |OnWorker(v, d, j)| <= |OnWorker(v, d, k)| + 1
    {
      PairStaysSpread(w, v, d, o, ok, t, j, k);
    }
  }

  lemma {:induction false} EffectKeepsApart(w: World, v: World, d: string, o: Order, ok: bool, t: string)
    requires KeysApart(w) && DispatchEffect(w, v, d, o, ok, t)
    ensures KeysApart(v)
  {
  }

  lemma {:induction false} DispatchSpreads(w: World, d: string, digest: string, signature: string, o: Order)
    requires Spreading(w, d) && OrderFits(w, o)
    ensures Spreading(Dispatch(w, d, digest, signature, o).world, d)
  {
    var p, t := Dispatch(w, d, digest, signature, o), TargetOf(w, d, o);
    if p.ok {
      forall k | k in w.workers && Feasible(w.workers[k], Needs(w, d))
        ensures |OnWorker(w, d, t)| <= |OnWorker(w, d, k)|
      {
        ChosenHoldsFewest(w, d, digest, signature, o, k);
      }
    }
    DispatchDoes(w, d, digest, signature, o);
    EffectSpreads(w, p.world, d, o, p.ok, t);
  }

  /**
   Balanced spread: while the instances of a fresh deployment are placed with no other
   writer, at every point no worker holds more than one above any worker still feasible.
   */
  lemma {:induction false} PlacementIsBalanced(w: World, d: string, digest: string, signature: string,
                                               orders: nat -> Order, n: nat)
    requires KeysApart(w) && d in w.deployments && (forall i :: i in w.instances ==> w.instances[i].deployment != d)
    requires OrdersFit(w, d, digest, signature, orders, n)
    ensures Spread(DispatchMany(w, d, digest, signature, orders, n).world, d)
  {
    forall k ensures |OnWorker(w, d, k)| == 0 {
      assert OnWorker(w, d, k) == {};
    }
    var step, inv := Placing(d, digest, signature, orders), (u: World) => Spreading(u, d);
    forall u, k: nat | inv(u) && Fitting(orders)(u, k) ensures inv(step(u, k).world) {
      DispatchSpreads(u, d, digest, signature, orders(k));
    }
    SeriesKeeps(w, step, n, Fitting(orders), inv);
  }
}
