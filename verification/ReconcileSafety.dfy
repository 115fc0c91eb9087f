/**
 Two guarantees of every reconciliation pass, whatever fails along the way: the replica
 counts it works with, and that containers it did not create survive it.
 */
module ReconcileSafety {
  import opened Wrappers
  import opened Scheduler
  import opened Diff
  import opened Cluster
  import opened Reconcile

  // ----- replica counts

  /** Matched replicas of a deployment. */
  function MatchedOf(matching: seq<Pair>, n: nat, d: string): nat
    requires n <= |matching|
  {
    if n == 0 then 0 else MatchedOf(matching, n - 1, d) + if matching[n - 1].desired.deploymentID == d then 1 else 0
  }

  /** Missing replicas of a deployment. */
  function MissingOf(missing: seq<Desired>, n: nat, d: string): nat
    requires n <= |missing|
  {
    if n == 0 then 0 else MissingOf(missing, n - 1, d) + if missing[n - 1].deploymentID == d then 1 else 0
  }

  function Min(a: int, b: int): int { if a < b then a else b }

  lemma {:induction false} CountMatchingCounts(matching: seq<Pair>, n: nat, d: string)
    requires n <= |matching|
    ensures Count(CountMatching(matching, n), d) == MatchedOf(matching, n, d)
  {
    if n > 0 {
      CountMatchingCounts(matching, n - 1, d);
    }
  }

  /** Deployments are not written during a pass. */
  lemma {:induction false} RepairKeepsDeployments(p: Pass, missing: seq<Desired>, attempts: nat -> Attempt, n: nat)
    requires n <= |missing|
    ensures RepairPhase(p, missing, attempts, n).world.deployments == p.world.deployments
    ensures RepairPhase(p, missing, attempts, n).world.workers == p.world.workers
  {
    if n > 0 {
      RepairKeepsDeployments(p, missing, attempts, n - 1);
    }
  }

  /** Every repair that is attempted succeeds: a worker is found, answers, and runs the container. */
  ghost predicate RepairsSucceed(w: World, missing: seq<Desired>, attempts: nat -> Attempt) {
    forall n :: 0 <= n < |missing| ==>
      attempts(n).dialed && attempts(n).ran && RepairTarget(w, missing[n], attempts(n).pick).Some?
  }

  /**
   A repair adds one to its deployment's count if it is below target and the attempt succeeds, and
   otherwise nothing.
   */
  lemma {:induction false} RepairStepCounts(p: Pass, m: Desired, a: Attempt, d: string)
    ensures var before, after := Count(p.running, d), Count(RepairStep(p, m, a).running, d);
            && before <= after <= before + (if m.deploymentID == d && before < Want(p.world, d) then 1 else 0)
            && (m.deploymentID == d && before < Want(p.world, d) && a.dialed && a.ran && RepairTarget(p.world, m, a.pick).Some?
                ==> after == before + 1)
  {
  }

  /** Repair stays between the matched count and the wanted count, and reaches what it can when nothing fails. */
  lemma {:induction false} RepairCounts(p: Pass, missing: seq<Desired>, attempts: nat -> Attempt, n: nat, d: string)
    requires n <= |missing|
    ensures RepairBounds(Count(p.running, d), Count(RepairPhase(p, missing, attempts, n).running, d), Want(p.world, d),
                         MissingOf(missing, n, d), RepairsSucceed(p.world, missing, attempts))
  {
    if n > 0 {
      RepairCounts(p, missing, attempts, n - 1, d);
      RepairKeepsDeployments(p, missing, attempts, n - 1);
      var q := RepairPhase(p, missing, attempts, n - 1);
      RepairStepCounts(q, missing[n - 1], attempts(n - 1), d);
      assert RepairTarget(q.world, missing[n - 1], attempts(n - 1).pick) == RepairTarget(p.world, missing[n - 1], attempts(n - 1).pick);
    }
  }

  predicate RepairBounds(m: int, k: int, want: int, x: nat, allSucceed: bool) {
    && m <= k
    && (m >= want ==> k == m)
    && (m < want ==> k <= Min(want, m + x))
    && (m < want && allSucceed ==> k == Min(want, m + x))
  }

  /** Pruning `excess` replicas of `d` takes as many as there are matches left, and no other deployment's. */
  lemma {:induction false} PruneDeploymentCounts(p: Pass, matching: seq<Pair>, d: string, excess: int,
                                                 ok: nat -> bool, i: nat, other: string)
    requires i <= |matching|
    ensures var q := PruneDeployment(p, matching, d, excess, ok, i);
            && q.world.deployments == p.world.deployments
            && Count(q.running, other) == Count(p.running, other) -
                 (if other == d && excess > 0 then Min(excess, MatchedOf(matching, i, d)) else 0)
    decreases i
  {
    if i > 0 && excess > 0 {
      if matching[i - 1].desired.deploymentID == d {
        PruneDeploymentCounts(PruneStep(p, matching[i - 1], ok(i - 1)), matching, d, excess - 1, ok, i - 1, other);
      } else {
        PruneDeploymentCounts(p, matching, d, excess, ok, i - 1, other);
      }
    }
  }

  /** After pruning, a listed deployment with enough matches is at its wanted count, and nobody falls below it. */
  lemma {:induction false} PruneCounts(p: Pass, matching: seq<Pair>, order: seq<string>, ok: nat -> bool,
                                       n: nat, d: string)
    requires n <= |order|
    requires Count(p.running, d) > Want(p.world, d) ==> Count(p.running, d) == MatchedOf(matching, |matching|, d)
    requires d in p.world.deployments
    ensures var q := PrunePhase(p, matching, order, ok, n);
            && q.world.deployments == p.world.deployments
            && (d !in order[..n] ==> Count(q.running, d) == Count(p.running, d))
            && (d in order[..n] ==> Count(q.running, d) == Min(Count(p.running, d), Want(p.world, d)))
  {
    if n > 0 {
      PruneCounts(p, matching, order, ok, n - 1, d);
      assert order[..n] == order[..n - 1] + [order[n - 1]];
      var q := PrunePhase(p, matching, order, ok, n - 1);
      var e := order[n - 1];
      if e in q.world.deployments {
        PruneDeploymentCounts(q, matching, e, Count(q.running, e) - Want(q.world, e), ok, |matching|, d);
      }
    }
  }

  lemma {:induction false} OrphansKeepDeployments(p: Pass, extra: seq<Observed>, ok: nat -> bool, n: nat)
    requires n <= |extra|
    ensures OrphanPhase(p, extra, ok, n).world.deployments == p.world.deployments
    ensures OrphanPhase(p, extra, ok, n).world.workers == p.world.workers
  {
    if n > 0 {
      OrphansKeepDeployments(p, extra, ok, n - 1);
    }
  }

  /**
   The replica count of a pass, for any world and any failures.  With m matched, x missing
   and D wanted: repair never lifts the count above D, prune never takes it below, and the
   final count is D when m >= D and min(D, m + x) when m < D and every repair succeeds.
   */
  lemma {:induction false} ReplicaCountOfAPass(w: World, e: Env, d: string)
    requires d in w.deployments && d in e.deploymentOrder
    ensures var diff := DiffOf(w, e);
            var m := MatchedOf(diff.matching, |diff.matching|, d);
            var x := MissingOf(diff.missing, |diff.missing|, d);
            var want := if w.deployments[d].count > 0 then w.deployments[d].count else 1;
            var repaired, final := Count(AfterRepair(w, e).running, d), Count(AfterPrune(w, e).running, d);
            && (m <= want ==> m <= repaired <= want)
            && (m >= want ==> final == want)
            && (m < want ==> m <= final <= Min(want, m + x))
            && (m < want && RepairsSucceed(w, diff.missing, e.repair) ==> final == Min(want, m + x))
  {
    var diff := DiffOf(w, e);
    OrphansKeepDeployments(Start(w), diff.extra, e.orphanStopped, |diff.extra|);
    CountsFromDiff(AfterOrphans(w, e), w, diff, e, d);
  }

  lemma {:induction false} CountsFromDiff(p: Pass, w: World, diff: DiffResult, e: Env, d: string)
    requires p.world.deployments == w.deployments && p.world.workers == w.workers
    requires d in w.deployments && d in e.deploymentOrder
    ensures var start := p.(running := CountMatching(diff.matching, |diff.matching|));
            var repaired := RepairPhase(start, diff.missing, e.repair, |diff.missing|);
            var pruned := PrunePhase(repaired, diff.matching, e.deploymentOrder, e.pruneStopped, |e.deploymentOrder|);
            var m := MatchedOf(diff.matching, |diff.matching|, d);
            && RepairBounds(m, Count(repaired.running, d), Want(w, d), MissingOf(diff.missing, |diff.missing|, d),
                            RepairsSucceed(w, diff.missing, e.repair))
            && Count(pruned.running, d) == Min(Count(repaired.running, d), Want(w, d))
  {
    var start := p.(running := CountMatching(diff.matching, |diff.matching|));
    var repaired := RepairPhase(start, diff.missing, e.repair, |diff.missing|);
    CountMatchingCounts(diff.matching, |diff.matching|, d);
    RepairCounts(start, diff.missing, e.repair, |diff.missing|, d);
    RepairKeepsDeployments(start, diff.missing, e.repair, |diff.missing|);
    assert RepairsSucceed(w, diff.missing, e.repair) ==> RepairsSucceed(start.world, diff.missing, e.repair) by {
      if RepairsSucceed(w, diff.missing, e.repair) {
        forall n | 0 <= n < |diff.missing| ensures RepairTarget(start.world, diff.missing[n], e.repair(n).pick).Some? {
          assert RepairTarget(w, diff.missing[n], e.repair(n).pick).Some?;
        }
      }
    }
    PruneCounts(repaired, diff.matching, e.deploymentOrder, e.pruneStopped, |e.deploymentOrder|, d);
    assert e.deploymentOrder[..|e.deploymentOrder|] == e.deploymentOrder;
  }

  // ----- unknown containers survive

  /** No instance key and neither of the control plane's labels. */
  ghost predicate Unknown(c: Container) {
    c.key == "" && "nebula.instance_id" !in c.labels && "nebula.deployment_id" !in c.labels
  }

  /** The name reaches none of the unknown containers on the worker. */
  ghost predicate Spares(w: World, worker: string, target: string) {
    forall c :: c in w.containers && Unknown(c) && c.worker == worker ==> c.key != target && c.id != target
  }

  ghost predicate SparesAll(w: World, calls: seq<Call>) {
    forall i :: 0 <= i < |calls| && calls[i].StopCall? ==> Spares(w, calls[i].worker, calls[i].target)
  }

  /**
   What a worker's container list looks like: the instance key is filled from the label, and
   container IDs are non-empty, unique on a worker and no instance key.
   */
  ghost predicate WellShaped(w: World, listed: seq<Container>) {
    && (forall c :: c in listed ==> c in w.containers)
    && (forall c :: c in w.containers && c.key == "" ==> Label(c.labels, INSTANCE_LABEL) == "")
    && (forall c :: c in w.containers ==> c.id != "" && forall i :: i in w.instances ==> c.id != w.instances[i].key)
    && (forall c, d :: c in w.containers && d in w.containers && c.worker == d.worker ==>
        c.id != d.key && (c.id == d.id ==> c == d))
    && (forall i :: i in w.instances ==> w.instances[i].key != "" && w.instances[i].id == i)
  }

  /** Compared with the start, every unknown container is still there and no instance has changed its key. */
  ghost predicate Untouched(w: World, p: Pass) {
    && (forall c :: c in w.containers && Unknown(c) ==> c in p.world.containers)
    && (forall i :: i in p.world.instances ==>
          i in w.instances && p.world.instances[i].id == i && p.world.instances[i].key == w.instances[i].key)
    && SparesAll(w, p.calls)
  }

  lemma {:induction false} StopSpares(w: World, p: Pass, worker: string, target: string)
    requires Untouched(w, p) && Spares(w, worker, target)
    ensures forall c :: c in w.containers && Unknown(c) ==> c in StopOn(p.world.containers, worker, target)
  {
  }

  lemma {:induction false} RunSpares(w: World, p: Pass, c: Container)
    requires Untouched(w, p) && c.key != ""
    ensures forall u :: u in w.containers && Unknown(u) ==> u in RunOn(p.world.containers, c)
  {
  }

  lemma {:induction false} KeySpares(w: World, listed: seq<Container>, worker: string, i: string)
    requires WellShaped(w, listed) && i in w.instances
    ensures Spares(w, worker, w.instances[i].key)
  {
  }

  /** A listed container that is managed is stopped by a name of its own. */
  lemma {:induction false} ListedSpares(w: World, listed: seq<Container>, c: Container)
    requires WellShaped(w, listed) && c in listed && Managed(ObservedOf(c))
    ensures Spares(w, c.worker, StopName(ObservedOf(c)))
  {
  }

  lemma {:induction false} ExtrasAreListed(desired: seq<Desired>, listed: seq<Container>, n: nat, o: Observed)
    requires n <= |listed| && o in ExtraSpec(desired, ObservedList(listed), n)
    ensures exists c :: c in listed && o == ObservedOf(c)
  {
    if o in ExtraSpec(desired, ObservedList(listed), n - 1) {
      ExtrasAreListed(desired, listed, n - 1, o);
    } else {
      assert listed[n - 1] in listed && o == ObservedOf(listed[n - 1]);
    }
  }

  lemma {:induction false} MatchesAreListed(desired: seq<Desired>, listed: seq<Container>, n: nat, pair: Pair)
    requires n <= |listed| && pair in MatchingSpec(desired, ObservedList(listed), n)
    ensures exists c :: c in listed && pair.observed == ObservedOf(c) && NameOf(pair.observed) != ""
  {
    if pair in MatchingSpec(desired, ObservedList(listed), n - 1) {
      MatchesAreListed(desired, listed, n - 1, pair);
    } else {
      assert listed[n - 1] in listed && pair.observed == ObservedOf(listed[n - 1]);
    }
  }

  lemma {:induction false} MissingHasKey(w: World, order: seq<string>, observed: seq<Observed>, n: nat, m: Desired)
    requires n <= |DesiredList(w, order)| && m in MissingSpec(DesiredList(w, order), observed, n)
    ensures m in DesiredList(w, order)
  {
    if m in MissingSpec(DesiredList(w, order), observed, n - 1) {
      MissingHasKey(w, order, observed, n - 1, m);
    } else {
      assert m == DesiredList(w, order)[n - 1];
    }
  }

  lemma {:induction false} DesiredAreInstances(w: World, order: seq<string>, m: Desired)
    requires m in DesiredList(w, order)
    ensures exists i :: IsDesired(w, i) && m == DesiredOf(w, i)
  {
    var front := order[..|order| - 1];
    if m in DesiredList(w, front) {
      DesiredAreInstances(w, front, m);
    } else {
      assert IsDesired(w, order[|order| - 1]);
    }
  }

  lemma {:induction false} OrphanStepSpares(w: World, p: Pass, o: Observed, ok: bool)
    requires Untouched(w, p) && (Managed(o) ==> Spares(w, o.workerID, StopName(o)))
    ensures Untouched(w, OrphanStep(p, o, ok))
  {
    if Managed(o) {
      StopSpares(w, p, o.workerID, StopName(o));
    }
  }

  lemma {:induction false} OrphanPhaseSpares(w: World, p: Pass, extra: seq<Observed>, ok: nat -> bool, n: nat)
    requires Untouched(w, p) && n <= |extra|
    requires forall k :: 0 <= k < |extra| && Managed(extra[k]) ==> Spares(w, extra[k].workerID, StopName(extra[k]))
    ensures Untouched(w, OrphanPhase(p, extra, ok, n))
  {
    if n > 0 {
      OrphanPhaseSpares(w, p, extra, ok, n - 1);
      OrphanStepSpares(w, OrphanPhase(p, extra, ok, n - 1), extra[n - 1], ok(n - 1));
    }
  }

  lemma {:induction false} RepairStepSpares(w: World, p: Pass, m: Desired, a: Attempt)
    requires Untouched(w, p) && m.instanceKey != ""
    ensures Untouched(w, RepairStep(p, m, a))
  {
    var q := RepairStep(p, m, a);
    var target := RepairTarget(p.world, m, a.pick);
    if q.actions.recreated != p.actions.recreated {
      RunSpares(w, p, NewContainer(target.value, a.newID, m.instanceKey, m.deploymentID, m.image, m.labels));
    }
  }

  lemma {:induction false} RepairPhaseSpares(w: World, p: Pass, missing: seq<Desired>, attempts: nat -> Attempt, n: nat)
    requires n <= |missing| && Untouched(w, p)
    requires forall k :: 0 <= k < |missing| ==> missing[k].instanceKey != ""
    ensures Untouched(w, RepairPhase(p, missing, attempts, n))
  {
    if n > 0 {
      RepairPhaseSpares(w, p, missing, attempts, n - 1);
      RepairStepSpares(w, RepairPhase(p, missing, attempts, n - 1), missing[n - 1], attempts(n - 1));
    }
  }

  lemma {:induction false} PruneStepSpares(w: World, p: Pass, pair: Pair, ok: bool)
    requires Untouched(w, p) && Spares(w, pair.observed.workerID, pair.observed.instanceKey)
    ensures Untouched(w, PruneStep(p, pair, ok))
  {
    StopSpares(w, p, pair.observed.workerID, pair.observed.instanceKey);
  }

  lemma {:induction false} PruneDeploymentSpares(w: World, p: Pass, matching: seq<Pair>, d: string, excess: int,
                                                 ok: nat -> bool, i: nat)
    requires i <= |matching| && Untouched(w, p)
    requires forall k :: 0 <= k < |matching| ==> Spares(w, matching[k].observed.workerID, matching[k].observed.instanceKey)
    ensures Untouched(w, PruneDeployment(p, matching, d, excess, ok, i))
    decreases i
  {
    if i > 0 && excess > 0 {
      if matching[i - 1].desired.deploymentID == d {
        PruneStepSpares(w, p, matching[i - 1], ok(i - 1));
        PruneDeploymentSpares(w, PruneStep(p, matching[i - 1], ok(i - 1)), matching, d, excess - 1, ok, i - 1);
      } else {
        PruneDeploymentSpares(w, p, matching, d, excess, ok, i - 1);
      }
    }
  }

  lemma {:induction false} PrunePhaseSpares(w: World, p: Pass, matching: seq<Pair>, order: seq<string>,
                                            ok: nat -> bool, n: nat)
    requires n <= |order| && Untouched(w, p)
    requires forall k :: 0 <= k < |matching| ==> Spares(w, matching[k].observed.workerID, matching[k].observed.instanceKey)
    ensures Untouched(w, PrunePhase(p, matching, order, ok, n))
  {
    if n > 0 {
      PrunePhaseSpares(w, p, matching, order, ok, n - 1);
      var q := PrunePhase(p, matching, order, ok, n - 1);
      var d := order[n - 1];
      PruneDeploymentSpares(w, q, matching, d, Count(q.running, d) - Want(q.world, d), ok, |matching|);
    }
  }

  lemma {:induction false} MigrateStepSpares(w: World, listed: seq<Container>, p: Pass, i: string, from: string,
                                             a: Attempt, oldStopped: bool)
    requires Untouched(w, p) && WellShaped(w, listed)
    ensures Untouched(w, MigrateStep(p, i, from, a, oldStopped))
  {
    var q := MigrateStep(p, i, from, a, oldStopped);
    if q.actions.migrated != p.actions.migrated {
      var inst, dep := p.world.instances[i], p.world.deployments[p.world.instances[i].deployment];
      var c := NewContainer(a.pick.value, a.newID, inst.key, inst.deployment, dep.image, dep.labels);
      KeySpares(w, listed, from, i);
      RunSpares(w, p, c);
    }
  }

  lemma {:induction false} DrainPhaseSpares(w: World, listed: seq<Container>, p: Pass,
                                            order: seq<(string, string)>, attempts: nat -> Attempt,
                                            oldStopped: nat -> bool, n: nat)
    requires n <= |order| && Untouched(w, p) && WellShaped(w, listed)
    ensures Untouched(w, DrainPhase(p, order, attempts, oldStopped, n))
  {
    if n > 0 {
      DrainPhaseSpares(w, listed, p, order, attempts, oldStopped, n - 1);
      MigrateStepSpares(w, listed, DrainPhase(p, order, attempts, oldStopped, n - 1),
                        order[n - 1].0, order[n - 1].1, attempts(n - 1), oldStopped(n - 1));
    }
  }

  /**
   Across a whole pass, with any failures: every container without a trace of the control
   plane is left as it was, and no stop request of the pass reaches one.
   */
  lemma {:induction false} UnknownContainersSurvive(w: World, e: Env)
    requires WellShaped(w, e.listed)
    ensures forall c :: c in w.containers && Unknown(c) ==> c in ReconcileSpec(w, e).world.containers
    ensures SparesAll(w, ReconcileSpec(w, e).calls)
  {
    var diff := DiffOf(w, e);
    var desired := DesiredList(w, e.instanceOrder);
    forall k | 0 <= k < |diff.extra| && Managed(diff.extra[k])
      ensures Spares(w, diff.extra[k].workerID, StopName(diff.extra[k]))
    {
      ExtrasAreListed(desired, e.listed, |e.listed|, diff.extra[k]);
      var c :| c in e.listed && diff.extra[k] == ObservedOf(c);
      ListedSpares(w, e.listed, c);
    }
    OrphanPhaseSpares(w, Start(w), diff.extra, e.orphanStopped, |diff.extra|);
    forall k | 0 <= k < |diff.missing| ensures diff.missing[k].instanceKey != "" {
      MissingHasKey(w, e.instanceOrder, ObservedList(e.listed), |desired|, diff.missing[k]);
      DesiredAreInstances(w, e.instanceOrder, diff.missing[k]);
    }
    forall k | 0 <= k < |diff.matching|
      ensures Spares(w, diff.matching[k].observed.workerID, diff.matching[k].observed.instanceKey)
    {
      MatchesAreListed(desired, e.listed, |e.listed|, diff.matching[k]);
      var c :| c in e.listed && diff.matching[k].observed == ObservedOf(c);
      ListedSpares(w, e.listed, c);
    }
    RepairPhaseSpares(w, AfterOrphans(w, e).(running := CountMatching(diff.matching, |diff.matching|)),
                      diff.missing, e.repair, |diff.missing|);
    PrunePhaseSpares(w, AfterRepair(w, e), diff.matching, e.deploymentOrder, e.pruneStopped, |e.deploymentOrder|);
    DrainPhaseSpares(w, e.listed, AfterPrune(w, e), e.drainOrder, e.migrate, e.oldStopped, |e.drainOrder|);
  }
}
