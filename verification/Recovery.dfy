/**
 Crash recovery, internal/deployments/recovery.go with state_machine.go: on restart every
 deployment found in flight is failed and what it left behind is cleaned up.
 */
module Recovery {
  import opened Scheduler
  import opened Diff
  import opened Cluster
  import opened Deployments

  // ----- the lifecycle table

  const LEGAL: map<DeploymentStatus, set<DeploymentStatus>> := map[
    QUEUED := {BUILDING, SCHEDULING, FAILED},
    BUILDING := {BUILT, FAILED},
    BUILT := {SCHEDULING, FAILED},
    SCHEDULING := {STARTING, FAILED},
    STARTING := {RUNNING, FAILED},
    RUNNING := {STOPPED, FAILED, ROLLED_BACK},
    FAILED := {},
    STOPPED := {},
    ROLLED_BACK := {}]

  predicate Legal(from: DeploymentStatus, to: DeploymentStatus) {
    from == to || (from in LEGAL && to in LEGAL[from])
  }

  // ----- specification

  /** How a worker answers during a clean-up: dialling, listing, and stopping each instance key. */
  datatype Answer = Answer(dialed: bool, listed: bool, stops: string -> bool)

  /** The order of the lists, and every worker's answers while a given deployment is cleaned up. */
  datatype Restart = Restart(
    deployments: seq<string>, workers: seq<string>, instances: seq<string>, answers: (string, string) -> Answer)

  datatype Report = Report(stuck: nat, queued: nat, building: nat, scheduling: nat, starting: nat, stopped: nat)

  function Labelled(cs: set<Container>, k: string, d: string): set<Container> {
    set c | c in cs && c.worker == k && Label(c.labels, DEPLOYMENT_LABEL) == d
  }

  /** The containers a clean-up of worker `k` manages to stop, by their own instance key. */
  function Stoppable(cs: set<Container>, k: string, d: string, a: Answer): set<Container> {
    if a.dialed && a.listed then set c | c in Labelled(cs, k, d) && a.stops(c.key) else {}
  }

  /** Stopping by instance key removes whatever on the worker goes by that name. */
  function StopAll(cs: set<Container>, k: string, victims: set<Container>): set<Container> {
    set c | c in cs && !(c.worker == k && exists x :: x in victims && (c.key == x.key || c.id == x.key))
  }

  predicate IsHealthy(w: World, k: string) {
    k in w.workers && w.workers[k].health == Healthy
  }

  function VictimsOn(w: World, cs: set<Container>, k: string, d: string, a: Answer): set<Container> {
    if IsHealthy(w, k) then Stoppable(cs, k, d, a) else {}
  }

  datatype Cleaned = Cleaned(containers: set<Container>, stopped: nat)

  function CleanUp(w: World, d: string, e: Restart, n: nat): Cleaned
    requires n <= |e.workers|
  {
    if n == 0 then Cleaned(w.containers, 0) else
      var before := CleanUp(w, d, e, n - 1);
      var k := e.workers[n - 1];
      var victims := VictimsOn(w, before.containers, k, d, e.answers(d, k));
      Cleaned(StopAll(before.containers, k, victims), before.stopped + |victims|)
  }

  /** Fails the listed records of the deployment, all of them or only the pending ones. */
  function FailRecords(w: World, d: string, order: seq<string>, pendingOnly: bool, n: nat): World
    requires n <= |order|
  {
    if n == 0 then w else
      var v := FailRecords(w, d, order, pendingOnly, n - 1);
      var i := order[n - 1];
      if i in v.instances && v.instances[i].deployment == d && (pendingOnly ==> v.instances[i].status == Pending)
      then UpdateInstance(v, v.instances[i].(status := Failed)) else v
  }

  datatype Recovering = Recovering(world: World, report: Report)

  function RecoverOne(r: Recovering, d: string, e: Restart): Recovering {
    var w := r.world;
    if d !in w.deployments then r else
    match w.deployments[d].status
    case QUEUED => Recovering(SetStatus(w, d, FAILED), r.report.(queued := r.report.queued + 1))
    case BUILDING => Recovering(SetStatus(SetImage(w, d, "", ""), d, FAILED), r.report.(building := r.report.building + 1))
    case BUILT =>
      Recovering(SetStatus(FailRecords(w, d, e.instances, true, |e.instances|), d, FAILED),
                 r.report.(scheduling := r.report.scheduling + 1))
    case SCHEDULING =>
      Recovering(SetStatus(FailRecords(w, d, e.instances, true, |e.instances|), d, FAILED),
                 r.report.(scheduling := r.report.scheduling + 1))
    case STARTING =>
      var c := CleanUp(w, d, e, |e.workers|);
      var cleaned := w.(containers := c.containers);
      Recovering(SetStatus(FailRecords(cleaned, d, e.instances, false, |e.instances|), d, FAILED),
                 r.report.(starting := r.report.starting + 1, stopped := r.report.stopped + c.stopped))
    case _ => r
  }

  function Stuck(w: World, order: seq<string>): (r: seq<string>)
    ensures forall d :: d in r <==> d in order && d in w.deployments && IsInFlight(w.deployments[d].status)
    ensures NoDuplicates(order) ==> NoDuplicates(r)
    ensures |r| <= |order|
  {
    if order == [] then [] else
      var front, d := order[..|order| - 1], order[|order| - 1];
      var rest := Stuck(w, front);
      assert NoDuplicates(order) ==> d !in front;
      assert forall x :: x in order <==> x in front || x == d;
      if d in w.deployments && IsInFlight(w.deployments[d].status) then rest + [d] else rest
  }

  function RecoverMany(r: Recovering, stuck: seq<string>, e: Restart, n: nat): Recovering
    requires n <= |stuck|
  {
    if n == 0 then r else RecoverOne(RecoverMany(r, stuck, e, n - 1), stuck[n - 1], e)
  }

  function Recover(w: World, e: Restart): Recovering {
    var stuck := Stuck(w, e.deployments);
    RecoverMany(Recovering(w, Report(|stuck|, 0, 0, 0, 0, 0)), stuck, e, |stuck|)
  }

  // ----- the engine

  class RecoveryEngine {
    var world: World

    constructor (w: World)
      ensures world == w
    {
      world := w;
    }

    method DetectStuckDeployments(order: seq<string>) returns (stuck: seq<string>)
      ensures stuck == Stuck(world, order)
    {
      stuck := [];
      for n := 0 to |order|
        invariant stuck == Stuck(world, order[..n])
      {
        assert order[..n + 1][..n] == order[..n];
        if order[n] in world.deployments && IsInFlight(world.deployments[order[n]].status) {
          stuck := stuck + [order[n]];
        }
      }
      assert order[..|order|] == order;
    }

    /** Stops the victims one by one, in any order. */
    method StopVictims(k: string, victims: set<Container>) returns (stopped: nat)
      modifies this
      ensures world == old(world).(containers := StopAll(old(world).containers, k, victims)) && stopped == |victims|
    {
      var todo := victims;
      ghost var start := world;
      stopped := 0;
      while todo != {}
        invariant todo <= victims && stopped == |victims| - |todo|
        invariant world == start.(containers := StopAll(start.containers, k, victims - todo))
        decreases |todo|
      {
        var c :| c in todo;
        var done := victims - todo;
        world := world.(containers := StopOn(world.containers, k, c.key));
        todo := todo - {c};
        assert victims - todo == done + {c};
        OneMoreStopped(start.containers, k, done, c);
        stopped := stopped + 1;
      }
      assert victims - todo == victims;
    }

    method CleanupPartialContainers(d: string, e: Restart) returns (stopped: nat)
      modifies this
      ensures var c := CleanUp(old(world), d, e, |e.workers|);
              world == old(world).(containers := c.containers) && stopped == c.stopped
    {
      stopped := 0;
      ghost var start := world;
      for n := 0 to |e.workers|
        invariant world == start.(containers := CleanUp(start, d, e, n).containers) && stopped == CleanUp(start, d, e, n).stopped
      {
        var k := e.workers[n];
        var count := StopVictims(k, VictimsOn(world, world.containers, k, d, e.answers(d, k)));
        stopped := stopped + count;
      }
    }

    method FailInstances(d: string, order: seq<string>, pendingOnly: bool)
      modifies this
      ensures world == FailRecords(old(world), d, order, pendingOnly, |order|)
    {
      ghost var start := world;
      for n := 0 to |order|
        invariant world == FailRecords(start, d, order, pendingOnly, n)
      {
        var i := order[n];
        if i in world.instances && world.instances[i].deployment == d && (!pendingOnly || world.instances[i].status == Pending) {
          world := UpdateInstance(world, world.instances[i].(status := Failed));
        }
      }
    }

    method RecoverDeployments(e: Restart) returns (report: Report)
      modifies this
      ensures Recovering(world, report) == Recover(old(world), e)
    {
      var stuck := DetectStuckDeployments(e.deployments);
      report := Report(|stuck|, 0, 0, 0, 0, 0);
      ghost var start := Recovering(world, report);
      for n := 0 to |stuck|
        invariant Recovering(world, report) == RecoverMany(start, stuck, e, n)
      {
        report := RecoverDeployment(stuck[n], e, report);
      }
    }

    method RecoverDeployment(d: string, e: Restart, sofar: Report) returns (report: Report)
      modifies this
      ensures Recovering(world, report) == RecoverOne(Recovering(old(world), sofar), d, e)
    {
      report := sofar;
      if d !in world.deployments {
        return;
      }
      match world.deployments[d].status
      case QUEUED =>
        world := SetStatus(world, d, FAILED);
        report := report.(queued := report.queued + 1);
      case BUILDING =>
        world := SetImage(world, d, "", "");
        world := SetStatus(world, d, FAILED);
        report := report.(building := report.building + 1);
      case BUILT =>
        FailInstances(d, e.instances, true);
        world := SetStatus(world, d, FAILED);
        report := report.(scheduling := report.scheduling + 1);
      case SCHEDULING =>
        FailInstances(d, e.instances, true);
        world := SetStatus(world, d, FAILED);
        report := report.(scheduling := report.scheduling + 1);
      case STARTING =>
        var count := CleanupPartialContainers(d, e);
        FailInstances(d, e.instances, false);
        world := SetStatus(world, d, FAILED);
        report := report.(starting := report.starting + 1, stopped := report.stopped + count);
      case _ =>
    }
  }

  lemma {:induction false} OneMoreStopped(cs: set<Container>, k: string, done: set<Container>, c: Container)
    ensures StopOn(StopAll(cs, k, done), k, c.key) == StopAll(cs, k, done + {c})
  {
    forall x ensures x in StopOn(StopAll(cs, k, done), k, c.key) <==> x in StopAll(cs, k, done + {c}) {
      if x in cs && x.worker == k && x !in StopAll(cs, k, done) {
        var y :| y in done && (x.key == y.key || x.id == y.key);
        assert y in done + {c};
      }
      if x in cs && x.worker == k && (x.key == c.key || x.id == c.key) {
        assert c in done + {c};
      }
    }
  }
}
