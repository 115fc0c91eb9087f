/**
 One reconciliation pass, internal/reconcile/loop.go with repair.go and orphan_policy.go:
 diff, stop orphans, recreate missing replicas, prune excess ones, migrate off draining
 workers.  The functions say what each phase does to the world, given the outcome of every
 remote call; the class runs the source's loops and is proved equal to them.
 */
module Reconcile {
  import opened Wrappers
  import opened Scheduler
  import opened Diff
  import opened Cluster

  datatype Actions = Actions(recreated: nat, stopped: nat, flagged: nat, migrated: nat, errors: nat)

  function TotalActions(a: Actions): nat {
    a.recreated + a.stopped + a.migrated
  }

  /** A remote call made during the pass, in order. */
  datatype Call = RunCall(worker: string, key: string) | StopCall(worker: string, target: string)

  /** The pass in progress; `running` counts replicas per deployment. */
  datatype Pass = Pass(world: World, running: map<string, int>, actions: Actions, calls: seq<Call>)

  /** How one attempt to start a container turns out: the scheduler's answer, dialling, running, and the new ID. */
  datatype Attempt = Attempt(pick: Option<string>, dialed: bool, ran: bool, newID: string)

  /**
   Everything the environment decides: the order in which instances, containers, counted
   deployments and draining workers' instances come, and the outcome of each call.
   */
  datatype Env = Env(
    instanceOrder: seq<string>,
    listed: seq<Container>,
    deploymentOrder: seq<string>,
    drainOrder: seq<(string, string)>,
    orphanStopped: nat -> bool,
    repair: nat -> Attempt,
    pruneStopped: nat -> bool,
    migrate: nat -> Attempt,
    oldStopped: nat -> bool)

  // ----- desired state

  predicate IsDesired(w: World, i: string) {
    i in w.instances
    && w.instances[i].deployment in w.deployments
    && w.deployments[w.instances[i].deployment].status == RUNNING
    && (w.instances[i].status == Running || w.instances[i].status == RepairFailed)
  }

  function DesiredOf(w: World, i: string): Desired
    requires IsDesired(w, i)
  {
    var inst := w.instances[i];
    Desired(inst.id, inst.key, inst.deployment, inst.worker,
            w.deployments[inst.deployment].image, w.deployments[inst.deployment].labels)
  }

  function DesiredList(w: World, order: seq<string>): seq<Desired> {
    if order == [] then [] else
      var rest := DesiredList(w, order[..|order| - 1]);
      var i := order[|order| - 1];
      if IsDesired(w, i) then rest + [DesiredOf(w, i)] else rest
  }

  function ObservedList(listed: seq<Container>): (r: seq<Observed>)
    ensures |r| == |listed| && forall i :: 0 <= i < |listed| ==> r[i] == ObservedOf(listed[i])
  {
    seq(|listed|, i requires 0 <= i < |listed| => ObservedOf(listed[i]))
  }

  /** The replica count a deployment asks for. */
  function Want(w: World, d: string): (n: int)
    ensures n >= 1
  {
    if d in w.deployments && w.deployments[d].count > 0 then w.deployments[d].count else 1
  }

  function Count(running: map<string, int>, d: string): int {
    if d in running then running[d] else 0
  }

  // ----- orphans

  function StopName(o: Observed): string {
    if o.instanceKey != "" then o.instanceKey else o.containerID
  }

  function OrphanStep(p: Pass, o: Observed, ok: bool): Pass {
    if !Managed(o) then p.(actions := p.actions.(flagged := p.actions.flagged + 1))
    else if ok then
      p.(world := p.world.(containers := StopOn(p.world.containers, o.workerID, StopName(o))),
         actions := p.actions.(stopped := p.actions.stopped + 1),
         calls := p.calls + [StopCall(o.workerID, StopName(o))])
    else
      p.(actions := p.actions.(errors := p.actions.errors + 1), calls := p.calls + [StopCall(o.workerID, StopName(o))])
  }

  function OrphanPhase(p: Pass, extra: seq<Observed>, ok: nat -> bool, n: nat): Pass
    requires n <= |extra|
  {
    if n == 0 then p else OrphanStep(OrphanPhase(p, extra, ok, n - 1), extra[n - 1], ok(n - 1))
  }

  // ----- repair

  function CountMatching(matching: seq<Pair>, n: nat): map<string, int>
    requires n <= |matching|
  {
    if n == 0 then map[] else
      var before := CountMatching(matching, n - 1);
      var d := matching[n - 1].desired.deploymentID;
      before[d := Count(before, d) + 1]
  }

  /** The assigned worker if it is healthy and not draining, else whatever the scheduler answers. */
  function RepairTarget(w: World, m: Desired, pick: Option<string>): Option<string> {
    if m.workerID != "" && m.workerID in w.workers
       && w.workers[m.workerID].health == Healthy && w.workers[m.workerID].state != Draining
    then Some(m.workerID)
    else if pick.Some? && pick.value in w.workers then pick else None
  }

  function Failing(p: Pass): Pass {
    p.(actions := p.actions.(errors := p.actions.errors + 1))
  }

  function SetStatusByKey(w: World, key: string, worker: string, status: InstanceStatus): World {
    if HasKey(w, key) then UpdateInstance(w, ByKey(w, key).(worker := worker, status := status)) else w
  }

  function RepairStep(p: Pass, m: Desired, a: Attempt): Pass {
    var target := RepairTarget(p.world, m, a.pick);
    if Count(p.running, m.deploymentID) >= Want(p.world, m.deploymentID) then p
    else if target.None? || !a.dialed then Failing(p)
    else
      var called := p.(calls := p.calls + [RunCall(target.value, m.instanceKey)]);
      if !a.ran then
        if HasKey(p.world, m.instanceKey)
        then Failing(called.(world := SetStatusByKey(p.world, m.instanceKey, ByKey(p.world, m.instanceKey).worker, RepairFailed)))
        else Failing(called)
      else
        var c := NewContainer(target.value, a.newID, m.instanceKey, m.deploymentID, m.image, m.labels);
        var ran := p.world.(containers := RunOn(p.world.containers, c));
        called.(world := SetStatusByKey(ran, m.instanceKey, target.value, Running),
                running := p.running[m.deploymentID := Count(p.running, m.deploymentID) + 1],
                actions := p.actions.(recreated := p.actions.recreated + 1))
  }

  function RepairPhase(p: Pass, missing: seq<Desired>, attempts: nat -> Attempt, n: nat): Pass
    requires n <= |missing|
  {
    if n == 0 then p else RepairStep(RepairPhase(p, missing, attempts, n - 1), missing[n - 1], attempts(n - 1))
  }

  // ----- prune

  function MarkStopped(w: World, key: string, id: string): World {
    if HasKey(w, key) then UpdateInstance(w, ByKey(w, key).(status := Stopped))
    else if id in w.instances then UpdateInstance(w, w.instances[id].(status := Stopped))
    else w
  }

  function PruneStep(p: Pass, pair: Pair, ok: bool): Pass {
    var o, d := pair.observed, pair.desired;
    var stopped := if ok then p.world.(containers := StopOn(p.world.containers, o.workerID, o.instanceKey)) else p.world;
    var marked := MarkStopped(stopped, o.instanceKey, d.instanceID);
    var routed :=
      if d.deploymentID in marked.deployments && marked.deployments[d.deploymentID].project != ""
      then UnregisterTarget(marked, marked.deployments[d.deploymentID].project, d.instanceID) else marked;
    p.(world := routed,
       running := p.running[d.deploymentID := Count(p.running, d.deploymentID) - 1],
       actions := p.actions.(stopped := p.actions.stopped + 1),
       calls := p.calls + [StopCall(o.workerID, o.instanceKey)])
  }

  /** Stops up to `excess` replicas of deployment `d`, latest match first. */
  function PruneDeployment(p: Pass, matching: seq<Pair>, d: string, excess: int, ok: nat -> bool, i: nat): Pass
    requires i <= |matching|
    decreases i
  {
    if i == 0 || excess <= 0 then p
    else if matching[i - 1].desired.deploymentID == d
    then PruneDeployment(PruneStep(p, matching[i - 1], ok(i - 1)), matching, d, excess - 1, ok, i - 1)
    else PruneDeployment(p, matching, d, excess, ok, i - 1)
  }

  function PrunePhase(p: Pass, matching: seq<Pair>, order: seq<string>, ok: nat -> bool, n: nat): Pass
    requires n <= |order|
  {
    if n == 0 then p else
      var q := PrunePhase(p, matching, order, ok, n - 1);
      var d := order[n - 1];
      if d in q.world.deployments
      then PruneDeployment(q, matching, d, Count(q.running, d) - Want(q.world, d), ok, |matching|) else q
  }

  // ----- drain

  /** Moves one instance off a draining worker: start the replacement, re-point the record, stop the old container. */
  function MigrateStep(p: Pass, i: string, from: string, a: Attempt, oldStopped: bool): Pass {
    var w := p.world;
    if !(i in w.instances && from in w.workers && w.workers[from].state == Draining
         && w.instances[i].worker == from && w.instances[i].status == Running
         && w.instances[i].deployment in w.deployments
         && a.pick.Some? && a.pick.value in w.workers && a.dialed)
    then p
    else if !a.ran then p.(calls := p.calls + [RunCall(a.pick.value, w.instances[i].key)])
    else
      var inst, dep := w.instances[i], w.deployments[w.instances[i].deployment];
      var c := NewContainer(a.pick.value, a.newID, inst.key, inst.deployment, dep.image, dep.labels);
      var ran := w.(containers := RunOn(w.containers, c));
      var moved := UpdateInstance(ran, inst.(worker := a.pick.value, container := a.newID));
      var counted := UpdateWorkload(UpdateWorkload(moved, a.pick.value, 1), from, -1);
      var stopped := if oldStopped then counted.(containers := StopOn(counted.containers, from, inst.key)) else counted;
      p.(world := stopped,
         actions := p.actions.(migrated := p.actions.migrated + 1),
         calls := p.calls + [RunCall(a.pick.value, inst.key), StopCall(from, inst.key)])
  }

  function DrainPhase(p: Pass, order: seq<(string, string)>, attempts: nat -> Attempt, oldStopped: nat -> bool,
                      n: nat): Pass
    requires n <= |order|
  {
    if n == 0 then p
    else MigrateStep(DrainPhase(p, order, attempts, oldStopped, n - 1), order[n - 1].0, order[n - 1].1, attempts(n - 1), oldStopped(n - 1))
  }

  // ----- the whole pass

  ghost function DiffOf(w: World, e: Env): DiffResult {
    DiffSpec(DesiredList(w, e.instanceOrder), ObservedList(e.listed))
  }

  function Start(w: World): Pass {
    Pass(w, map[], Actions(0, 0, 0, 0, 0), [])
  }

  ghost function AfterOrphans(w: World, e: Env): Pass {
    OrphanPhase(Start(w), DiffOf(w, e).extra, e.orphanStopped, |DiffOf(w, e).extra|)
  }

  ghost function AfterRepair(w: World, e: Env): Pass {
    var d := DiffOf(w, e);
    RepairPhase(AfterOrphans(w, e).(running := CountMatching(d.matching, |d.matching|)), d.missing, e.repair, |d.missing|)
  }

  ghost function AfterPrune(w: World, e: Env): Pass {
    PrunePhase(AfterRepair(w, e), DiffOf(w, e).matching, e.deploymentOrder, e.pruneStopped, |e.deploymentOrder|)
  }

  ghost function ReconcileSpec(w: World, e: Env): Pass {
    DrainPhase(AfterPrune(w, e), e.drainOrder, e.migrate, e.oldStopped, |e.drainOrder|)
  }

  class Reconciler {
    var world: World

    constructor (w: World)
      ensures world == w
    {
      world := w;
    }

    method ListDesired(order: seq<string>) returns (desired: seq<Desired>)
      ensures desired == DesiredList(world, order)
    {
      desired := [];
      for n := 0 to |order|
        invariant desired == DesiredList(world, order[..n])
      {
        assert order[..n + 1][..n] == order[..n];
        if IsDesired(world, order[n]) {
          desired := desired + [DesiredOf(world, order[n])];
        }
      }
      assert order[..|order|] == order;
    }

    /** One full convergence pass. */
    method ReconcileOnce(e: Env) returns (actions: Actions, calls: seq<Call>)
      modifies this
      ensures var p := ReconcileSpec(old(world), e);
              world == p.world && actions == p.actions && calls == p.calls
    {
      var desired := ListDesired(e.instanceOrder);
      var diff := ComputeDiff(desired, ObservedList(e.listed));
      var p := StopOrphans(Start(world), diff.extra, e.orphanStopped);
      var counts := CountReplicas(diff.matching);
      p := RepairMissing(p.(running := counts), diff.missing, e.repair);
      p := PruneExcess(p, diff.matching, e.deploymentOrder, e.pruneStopped);
      p := ReconcileDraining(p, e.drainOrder, e.migrate, e.oldStopped);
      world := p.world;
      return p.actions, p.calls;
    }

    static method StopOrphans(start: Pass, extra: seq<Observed>, ok: nat -> bool) returns (p: Pass)
      ensures p == OrphanPhase(start, extra, ok, |extra|)
    {
      p := start;
      for n := 0 to |extra|
        invariant p == OrphanPhase(start, extra, ok, n)
      {
        p := OrphanStep(p, extra[n], ok(n));
      }
    }

    static method CountReplicas(matching: seq<Pair>) returns (counts: map<string, int>)
      ensures counts == CountMatching(matching, |matching|)
    {
      counts := map[];
      for n := 0 to |matching|
        invariant counts == CountMatching(matching, n)
      {
        var d := matching[n].desired.deploymentID;
        counts := counts[d := Count(counts, d) + 1];
      }
    }

    static method RepairMissing(start: Pass, missing: seq<Desired>, attempts: nat -> Attempt) returns (p: Pass)
      ensures p == RepairPhase(start, missing, attempts, |missing|)
    {
      p := start;
      for n := 0 to |missing|
        invariant p == RepairPhase(start, missing, attempts, n)
      {
        p := RepairStep(p, missing[n], attempts(n));
      }
    }

    static method PruneExcess(start: Pass, matching: seq<Pair>, order: seq<string>, ok: nat -> bool) returns (p: Pass)
      ensures p == PrunePhase(start, matching, order, ok, |order|)
    {
      p := start;
      for n := 0 to |order|
        invariant p == PrunePhase(start, matching, order, ok, n)
      {
        if order[n] in p.world.deployments {
          p := Prune(p, matching, order[n], Count(p.running, order[n]) - Want(p.world, order[n]), ok);
        }
      }
    }

    static method ReconcileDraining(start: Pass, order: seq<(string, string)>, attempts: nat -> Attempt,
                                    oldStopped: nat -> bool)
      returns (p: Pass)
      ensures p == DrainPhase(start, order, attempts, oldStopped, |order|)
    {
      p := start;
      for n := 0 to |order|
        invariant p == DrainPhase(start, order, attempts, oldStopped, n)
      {
        p := MigrateStep(p, order[n].0, order[n].1, attempts(n), oldStopped(n));
      }
    }

    static method Prune(start: Pass, matching: seq<Pair>, d: string, excess: int, ok: nat -> bool) returns (p: Pass)
      ensures p == PruneDeployment(start, matching, d, excess, ok, |matching|)
    {
      p := start;
      var i, left := |matching|, excess;
      while i > 0 && left > 0
        invariant 0 <= i <= |matching|
        invariant PruneDeployment(p, matching, d, left, ok, i) == PruneDeployment(start, matching, d, excess, ok, |matching|)
      {
        if matching[i - 1].desired.deploymentID == d {
          p := PruneStep(p, matching[i - 1], ok(i - 1));
          left := left - 1;
        }
        i := i - 1;
      }
    }
  }
}
