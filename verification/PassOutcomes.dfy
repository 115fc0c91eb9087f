/**
 What each step of a reconciliation pass leaves behind, in the fields of records, containers
 and counters: which worker a repair goes to and what it runs, which replicas a prune takes,
 what a migration starts.
 */
module PassOutcomes {
  import opened Wrappers
  import opened Scheduler
  import opened Diff
  import opened Cluster
  import opened Reconcile
  import opened DiffFacts
  import opened Convergence

  /** A container as a worker runs it for an instance of a deployment. */
  ghost predicate RunsAs(c: Container, worker: string, key: string, d: string, image: string, labels: map<string, string>) {
    && c.worker == worker && c.key == key && c.image == image && c.state == "running"
    && "nebula.instance_id" in c.labels && c.labels["nebula.instance_id"] == key
    && (d != "" ==> "nebula.deployment_id" in c.labels && c.labels["nebula.deployment_id"] == d)
    && forall l :: l in labels && l != "nebula.instance_id" && l != "nebula.deployment_id" ==>
         l in c.labels && c.labels[l] == labels[l]
  }

  /** A pass has taken action exactly if it recreated, stopped or migrated something. */
  lemma {:induction false} ActionsCounted(a: Actions)
    ensures TotalActions(a) == 0 <==> a.recreated == 0 && a.stopped == 0 && a.migrated == 0
  {
  }

  // ----- orphans

  /** A container with a trace of the control plane is stopped by its key, or its ID if it has none; any other is only flagged. */
  lemma {:induction false} OrphanOutcome(p: Pass, o: Observed, ok: bool)
    ensures var q := OrphanStep(p, o, ok);
            var known := o.instanceKey != "" || o.deploymentID != ""
                         || "nebula.instance_id" in o.labels || "nebula.deployment_id" in o.labels;
            var name := if o.instanceKey != "" then o.instanceKey else o.containerID;
            && q.running == p.running && q.world == p.world.(containers := q.world.containers)
            && (!known ==> q == p.(actions := p.actions.(flagged := p.actions.flagged + 1)))
            && (known ==> q.calls == p.calls + [StopCall(o.workerID, name)])
            && (known && ok ==>
                  && q.actions == p.actions.(stopped := p.actions.stopped + 1)
                  && forall c :: c in q.world.containers <==>
                       c in p.world.containers && !(c.worker == o.workerID && (c.key == name || c.id == name)))
            && (known && !ok ==> q.world == p.world && q.actions == p.actions.(errors := p.actions.errors + 1))
  {
  }

  // ----- repair

  /** The worker a repair goes to: the assigned one if it is registered, healthy and not draining, else the scheduler's pick. */
  lemma {:induction false} RepairTargetExactly(w: World, m: Desired, pick: Option<string>)
    ensures var keeps := m.workerID != "" && m.workerID in w.workers
                         && w.workers[m.workerID].health == Healthy && w.workers[m.workerID].state != Draining;
            && (keeps ==> RepairTarget(w, m, pick) == Some(m.workerID))
            && (!keeps && pick.Some? && pick.value in w.workers ==> RepairTarget(w, m, pick) == pick)
            && (!keeps && (pick.None? || pick.value !in w.workers) ==> RepairTarget(w, m, pick) == None)
  {
  }

  ghost predicate BelowCount(p: Pass, d: string) {
    Count(p.running, d) < if d in p.world.deployments && p.world.deployments[d].count > 0 then p.world.deployments[d].count else 1
  }

  /** A repair that is not due changes nothing; one that finds no worker is an error and nothing else. */
  lemma {:induction false} RepairNotMade(p: Pass, m: Desired, a: Attempt)
    ensures !BelowCount(p, m.deploymentID) ==> RepairStep(p, m, a) == p
    ensures BelowCount(p, m.deploymentID) && (RepairTarget(p.world, m, a.pick).None? || !a.dialed) ==>
              RepairStep(p, m, a) == p.(actions := p.actions.(errors := p.actions.errors + 1))
  {
  }

  /** A repair that is made runs the deployment's image under the instance's key on its target. */
  lemma {:induction false} RepairMade(p: Pass, m: Desired, a: Attempt)
    requires NamesUnique(p.world) && IsEntry(p.world, m)
    requires BelowCount(p, m.deploymentID) && RepairTarget(p.world, m, a.pick).Some? && a.dialed && a.ran
    ensures var q, t := RepairStep(p, m, a), RepairTarget(p.world, m, a.pick).value;
            && q.actions == p.actions.(recreated := p.actions.recreated + 1)
            && q.calls == p.calls + [RunCall(t, m.instanceKey)]
            && Count(q.running, m.deploymentID) == Count(p.running, m.deploymentID) + 1
            && (exists c :: c in q.world.containers && c.id == a.newID
                            && RunsAs(c, t, m.instanceKey, m.deploymentID, m.image, m.labels))
            && m.instanceID in q.world.instances
            && q.world.instances[m.instanceID].status == Running && q.world.instances[m.instanceID].worker == t
  {
    var t := RepairTarget(p.world, m, a.pick).value;
    RepairMarks(p, m, a);
    assert HasKey(p.world, m.instanceKey) && ByKey(p.world, m.instanceKey) == p.world.instances[m.instanceID];
    var c := NewContainer(t, a.newID, m.instanceKey, m.deploymentID, m.image, m.labels);
    assert c in RepairStep(p, m, a).world.containers && RunsAs(c, t, m.instanceKey, m.deploymentID, m.image, m.labels);
  }

  /** A repair that the worker refuses marks the record and changes no container. */
  lemma {:induction false} RepairRefused(p: Pass, m: Desired, a: Attempt)
    requires NamesUnique(p.world) && IsEntry(p.world, m)
    requires BelowCount(p, m.deploymentID) && RepairTarget(p.world, m, a.pick).Some? && a.dialed && !a.ran
    ensures var q := RepairStep(p, m, a);
            && q.actions == p.actions.(errors := p.actions.errors + 1) && q.running == p.running
            && q.world.containers == p.world.containers && m.instanceID in q.world.instances
            && q.world.instances[m.instanceID] == p.world.instances[m.instanceID].(status := RepairFailed)
  {
    RepairMarks(p, m, a);
    assert HasKey(p.world, m.instanceKey) && ByKey(p.world, m.instanceKey) == p.world.instances[m.instanceID];
  }

  // ----- prune

  /** The deployment's pairs, in order. */
  function PairsOf(matching: seq<Pair>, i: nat, d: string): seq<Pair>
    requires i <= |matching|
  {
    if i == 0 then []
    else PairsOf(matching, i - 1, d) + (if matching[i - 1].desired.deploymentID == d then [matching[i - 1]] else [])
  }

  function StopsOf(pairs: seq<Pair>): seq<Call> {
    seq(|pairs|, k requires 0 <= k < |pairs| =>
      StopCall(pairs[|pairs| - 1 - k].observed.workerID, pairs[|pairs| - 1 - k].observed.instanceKey))
  }

  /** The last `n` of a list, all of it if it is shorter. */
  function LastN<T>(s: seq<T>, n: int): seq<T> {
    if n <= 0 then [] else if n >= |s| then s else s[|s| - n..]
  }

  lemma {:induction false} StopsOfSnoc(pairs: seq<Pair>, p: Pair, n: int)
    requires n >= 1
    ensures StopsOf(LastN(pairs + [p], n))
            == [StopCall(p.observed.workerID, p.observed.instanceKey)] + StopsOf(LastN(pairs, n - 1))
  {
    assert LastN(pairs + [p], n) == LastN(pairs, n - 1) + [p];
  }

  /** Pruning stops the deployment's latest matches, the last one first, as many as are in excess. */
  lemma {:induction false} PruneTakesTheLatest(p: Pass, matching: seq<Pair>, d: string, excess: int, ok: nat -> bool, i: nat)
    requires i <= |matching|
    ensures var q := PruneDeployment(p, matching, d, excess, ok, i);
            && q.calls == p.calls + StopsOf(LastN(PairsOf(matching, i, d), excess))
            && q.actions == p.actions.(stopped := p.actions.stopped + |LastN(PairsOf(matching, i, d), excess)|)
    decreases i
  {
    if i > 0 && excess > 0 {
      var pair := matching[i - 1];
      if pair.desired.deploymentID == d {
        StopsOfSnoc(PairsOf(matching, i - 1, d), pair, excess);
        PruneTakesTheLatest(PruneStep(p, pair, ok(i - 1)), matching, d, excess - 1, ok, i - 1);
        assert LastN(PairsOf(matching, i - 1, d) + [pair], excess) == LastN(PairsOf(matching, i - 1, d), excess - 1) + [pair];
      } else {
        PruneTakesTheLatest(p, matching, d, excess, ok, i - 1);
        assert PairsOf(matching, i, d) == PairsOf(matching, i - 1, d);
      }
    } else {
      assert LastN(PairsOf(matching, i, d), excess) == [];
    }
  }

  // ----- drain

  /** What a migration starts is the deployment's image under the instance's key, and the record names it. */
  lemma {:induction false} MigrationStarts(p: Pass, i: string, from: string, a: Attempt, oldStopped: bool)
    requires i in p.world.instances && p.world.instances[i].id == i && from in p.world.workers && p.world.workers[from].state == Draining
    requires p.world.instances[i].worker == from && p.world.instances[i].status == Running
    requires p.world.instances[i].deployment in p.world.deployments
    requires a.pick.Some? && a.pick.value in p.world.workers && a.dialed && a.ran && a.pick.value != from
    ensures var q, inst := MigrateStep(p, i, from, a, oldStopped), p.world.instances[i];
            var dep := p.world.deployments[inst.deployment];
            && q.actions == p.actions.(migrated := p.actions.migrated + 1)
            && (exists c :: c in q.world.containers && c.id == a.newID
                            && RunsAs(c, a.pick.value, inst.key, inst.deployment, dep.image, dep.labels))
            && i in q.world.instances && q.world.instances[i] == inst.(worker := a.pick.value, container := a.newID)
  {
    var q, inst := MigrateStep(p, i, from, a, oldStopped), p.world.instances[i];
    var dep := p.world.deployments[inst.deployment];
    var c := NewContainer(a.pick.value, a.newID, inst.key, inst.deployment, dep.image, dep.labels);
    assert c in q.world.containers && RunsAs(c, a.pick.value, inst.key, inst.deployment, dep.image, dep.labels);
  }
}
