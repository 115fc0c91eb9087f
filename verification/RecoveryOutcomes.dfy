/**
 What recovery does and reports, in the terms of the records: which containers a clean-up
 stops, which records each status fails, and what every counter of the report counts.
 */
module RecoveryOutcomes {
  import opened Scheduler
  import opened Cluster
  import opened Deployments
  import opened Recovery
  import opened CrashSafety
  import opened RecoverySafety

  // ----- the lifecycle table

  /** How far along its life a deployment is. */
  function Rank(s: DeploymentStatus): nat {
    match s
    case QUEUED => 0
    case BUILDING => 1
    case BUILT => 2
    case SCHEDULING => 3
    case STARTING => 4
    case RUNNING => 5
    case _ => 6
  }

  /**
   A deployment only moves forward: it fails from any status that is not final, ends STOPPED or
   ROLLED_BACK from RUNNING, and otherwise goes to the next stage, or past a build it does not need.
   */
  lemma {:induction false} LifecycleIsForward(from: DeploymentStatus, to: DeploymentStatus)
    ensures from != to && Legal(from, to) <==>
            || (to == FAILED && Rank(from) < 6)
            || (to in {STOPPED, ROLLED_BACK} && from == RUNNING)
            || (Rank(from) + 1 == Rank(to) < 6)
            || (from == QUEUED && to == SCHEDULING)
  {
  }

  // ----- what a clean-up stops

  /** Container `c` is labelled with the deployment and its worker is listed, healthy, and answers. */
  predicate Removable(w: World, d: string, e: Restart, n: nat, c: Container)
    requires n <= |e.workers|
  {
    && c in w.containers && "nebula.deployment_id" in c.labels && c.labels["nebula.deployment_id"] == d
    && c.worker in e.workers[..n] && c.worker in w.workers && w.workers[c.worker].health == Healthy
    && e.answers(d, c.worker).dialed && e.answers(d, c.worker).listed && e.answers(d, c.worker).stops(c.key)
  }

  function AllRemovable(w: World, d: string, e: Restart, n: nat): set<Container>
    requires n <= |e.workers|
  {
    set c | c in w.containers && Removable(w, d, e, n, c)
  }

  /** What goes by the instance key of a container in `gone`, on its worker. */
  ghost predicate Hit(gone: set<Container>, c: Container) {
    exists x :: x in gone && Hits(x, c)
  }

  /**
   A clean-up of the first `n` listed workers stops exactly the removable containers, by their
   instance keys, and counts each once.
   */
  lemma {:induction false} CleanUpExactly(w: World, d: string, e: Restart, n: nat)
    requires n <= |e.workers| && d != ""
    ensures LeftOf(w.containers, AllRemovable(w, d, e, n), CleanUp(w, d, e, n).containers)
    ensures CleanUp(w, d, e, n).stopped == |AllRemovable(w, d, e, n)|
  {
    if n == 0 {
      assert AllRemovable(w, d, e, 0) == {};
    } else {
      CleanUpExactly(w, d, e, n - 1);
      SweepNext(w, d, e, n, CleanUp(w, d, e, n - 1));
    }
  }

  lemma {:induction false} SweepNext(w: World, d: string, e: Restart, n: nat, before: Cleaned)
    requires 0 < n <= |e.workers| && d != ""
    requires LeftOf(w.containers, AllRemovable(w, d, e, n - 1), before.containers)
    ensures var k := e.workers[n - 1];
            var victims := VictimsOn(w, before.containers, k, d, e.answers(d, k));
            && LeftOf(w.containers, AllRemovable(w, d, e, n), StopAll(before.containers, k, victims))
            && |AllRemovable(w, d, e, n)| == |AllRemovable(w, d, e, n - 1)| + |victims|
  {
    var k, gone := e.workers[n - 1], AllRemovable(w, d, e, n - 1);
    var victims := VictimsOn(w, before.containers, k, d, e.answers(d, k));
    VictimsAreNew(w, d, e, n, before.containers);
    RemovableGrows(w, d, e, n);
    assert AllRemovable(w, d, e, n) == gone + victims;
    SweepOneMore(w.containers, gone, before.containers, victims, k);
  }

  /** On the next worker, the victims are the removable containers there, or none if it was listed before. */
  lemma {:induction false} VictimsAreNew(w: World, d: string, e: Restart, n: nat, left: set<Container>)
    requires 0 < n <= |e.workers| && d != "" && LeftOf(w.containers, AllRemovable(w, d, e, n - 1), left)
    ensures VictimsOn(w, left, e.workers[n - 1], d, e.answers(d, e.workers[n - 1]))
            == AllRemovable(w, d, e, n) - AllRemovable(w, d, e, n - 1)
  {
    var k, gone := e.workers[n - 1], AllRemovable(w, d, e, n - 1);
    var victims := VictimsOn(w, left, k, d, e.answers(d, k));
    forall c ensures c in victims <==> Removable(w, d, e, n, c) && c !in gone {
      assert c.worker in e.workers[..n] <==> c.worker in e.workers[..n - 1] || c.worker == k;
      if c in gone {
        assert Hits(c, c) && Hit(gone, c);
      } else if Removable(w, d, e, n, c) {
        assert c.worker == k && c.worker !in e.workers[..n - 1];
        assert !Hit(gone, c);
      }
    }
  }

  lemma {:induction false} RemovableGrows(w: World, d: string, e: Restart, n: nat)
    requires 0 < n <= |e.workers|
    ensures AllRemovable(w, d, e, n - 1) <= AllRemovable(w, d, e, n)
  {
    assert forall k :: k in e.workers[..n - 1] ==> k in e.workers[..n];
  }

  /** `left` is what is left of `all` once the containers in `gone` were stopped by their keys. */
  ghost predicate LeftOf(all: set<Container>, gone: set<Container>, left: set<Container>) {
    forall x :: x in left <==> x in all && !Hit(gone, x)
  }

  lemma {:induction false} SweepOneMore(all: set<Container>, gone: set<Container>, left: set<Container>,
                                        victims: set<Container>, k: string)
    requires LeftOf(all, gone, left) && forall x :: x in victims ==> x.worker == k
    ensures LeftOf(all, gone + victims, StopAll(left, k, victims))
  {
    forall x ensures x in StopAll(left, k, victims) <==> x in all && !Hit(gone + victims, x) {
      assert Hit(gone + victims, x) <==> Hit(gone, x) || Hit(victims, x);
    }
  }

  // ----- what recovering one deployment does

  /** The listed records of `d`, all of them or only the pending ones, have failed, and the rest are as they were. */
  ghost predicate OnlyFailed(w: World, v: World, d: string, e: Restart, pendingOnly: bool) {
    && v.instances.Keys == w.instances.Keys
    && forall i :: i in w.instances ==>
         if i in e.instances && w.instances[i].deployment == d && (!pendingOnly || w.instances[i].status == Pending)
         then v.instances[i] == w.instances[i].(status := InstanceStatus.Failed) else v.instances[i] == w.instances[i]
  }

  /**
   One deployment, in any world, by the status it is found in.  QUEUED and BUILDING touch no
   record or container, BUILT and SCHEDULING fail the pending records, STARTING fails them all and
   sweeps the containers.
   */
  lemma {:induction false} RecoverOneByStatus(r: Recovering, d: string, e: Restart)
    requires IDsMatch(r.world) && InFlight(r.world, d) && d != ""
    ensures var w, v, s := r.world, RecoverOne(r, d, e).world, r.world.deployments[d].status;
            && v.workers == w.workers && v.targets == w.targets
            && v.deployments == w.deployments[d := FailedRecord(w.deployments[d])]
            && (s in {QUEUED, BUILDING} ==> v.instances == w.instances)
            && (s in {BUILT, SCHEDULING} ==> OnlyFailed(w, v, d, e, true))
            && (s == STARTING ==> OnlyFailed(w, v, d, e, false))
            && (s == STARTING ==> LeftOf(w.containers, AllRemovable(w, d, e, |e.workers|), v.containers))
            && (s != STARTING ==> v.containers == w.containers)
  {
    var w, s := r.world, r.world.deployments[d].status;
    assert e.instances[..|e.instances|] == e.instances;
    if s == STARTING {
      CleanUpExactly(w, d, e, |e.workers|);
      FailRecordsDoes(w.(containers := CleanUp(w, d, e, |e.workers|).containers), d, e.instances, false, |e.instances|);
    } else if s in {BUILT, SCHEDULING} {
      FailRecordsDoes(w, d, e.instances, true, |e.instances|);
    }
  }

  // ----- what the report counts

  function WithStatus(w: World, ds: seq<string>, among: set<DeploymentStatus>): set<string> {
    set d | d in ds && d in w.deployments && w.deployments[d].status in among
  }

  lemma {:induction false} OneMoreWithStatus(w: World, ds: seq<string>, d: string, among: set<DeploymentStatus>)
    requires d in w.deployments && d !in ds
    ensures var s := WithStatus(w, ds, among);
            && d !in s && WithStatus(w, ds + [d], among) == (if w.deployments[d].status in among then s + {d} else s)
            && |WithStatus(w, ds + [d], among)| == |s| + if w.deployments[d].status in among then 1 else 0
  {
  }

  /** The counters of a report that began at zero, once the deployments in `done` are recovered. */
  ghost predicate Tallied(w: World, done: seq<string>, r: Report) {
    && r.queued == |WithStatus(w, done, {QUEUED})| && r.building == |WithStatus(w, done, {BUILDING})|
    && r.scheduling == |WithStatus(w, done, {BUILT, SCHEDULING})| && r.starting == |WithStatus(w, done, {STARTING})|
  }

  lemma {:induction false} TallyOneMore(w: World, q: Recovering, done: seq<string>, d: string, e: Restart)
    requires Tallied(w, done, q.report) && d !in done && d in w.deployments && InFlight(q.world, d)
    requires q.world.deployments[d].status == w.deployments[d].status
    ensures Tallied(w, done + [d], RecoverOne(q, d, e).report)
  {
    OneMoreWithStatus(w, done, d, {QUEUED});
    OneMoreWithStatus(w, done, d, {BUILDING});
    OneMoreWithStatus(w, done, d, {BUILT, SCHEDULING});
    OneMoreWithStatus(w, done, d, {STARTING});
  }

  /** The containers labelled with one of these deployments that their clean-up stops. */
  function SweptOf(w: World, ds: set<string>, e: Restart): set<Container> {
    set c | c in w.containers && Owner(c) in ds && Removable(w, Owner(c), e, |e.workers|, c)
  }

  /** The containers of `d` are still all there when its turn comes. */
  lemma {:induction false} RemovableStill(w: World, v: World, done: seq<string>, d: string, e: Restart)
    requires Recovered(w, v, done, e) && d !in done && d != ""
    ensures AllRemovable(v, d, e, |e.workers|) == AllRemovable(w, d, e, |e.workers|)
  {
    forall c | Removable(w, d, e, |e.workers|, c) ensures c in v.containers {
      assert Owner(c) == d;
    }
  }

  lemma {:induction false} RemovableIsOwned(w: World, d: string, e: Restart, c: Container)
    requires d != ""
    ensures c in AllRemovable(w, d, e, |e.workers|) <==> c in SweptOf(w, {d}, e)
  {
  }

  lemma {:induction false} SweptGrows(w: World, ds: set<string>, d: string, e: Restart)
    requires d !in ds && d != ""
    ensures |SweptOf(w, ds + {d}, e)| == |SweptOf(w, ds, e)| + |AllRemovable(w, d, e, |e.workers|)|
  {
    var before, more := SweptOf(w, ds, e), SweptOf(w, {d}, e);
    assert SweptOf(w, ds + {d}, e) == before + more && before !! more;
    forall c ensures c in AllRemovable(w, d, e, |e.workers|) <==> c in more {
      RemovableIsOwned(w, d, e, c);
    }
    assert AllRemovable(w, d, e, |e.workers|) == more;
  }

  lemma {:induction false} StoppedCounts(q: Recovering, d: string, e: Restart)
    requires InFlight(q.world, d) && d != ""
    ensures RecoverOne(q, d, e).report.stopped == q.report.stopped +
            if q.world.deployments[d].status == STARTING then |AllRemovable(q.world, d, e, |e.workers|)| else 0
  {
    CleanUpExactly(q.world, d, e, |e.workers|);
  }

  /** The whole report, once the deployments in `done` are recovered. */
  ghost predicate Reported(w: World, done: seq<string>, e: Restart, r: Report) {
    Tallied(w, done, r) && r.stopped == |SweptOf(w, WithStatus(w, done, {STARTING}), e)|
  }

  lemma {:induction false} ReportOneMore(w: World, q: Recovering, done: seq<string>, d: string, e: Restart)
    requires Recovered(w, q.world, done, e) && Reported(w, done, e, q.report) && d !in done && InFlight(w, d) && d != ""
    ensures Reported(w, done + [d], e, RecoverOne(q, d, e).report)
  {
    TallyOneMore(w, q, done, d, e);
    RemovableStill(w, q.world, done, d, e);
    OneMoreWithStatus(w, done, d, {STARTING});
    SweptGrows(w, WithStatus(w, done, {STARTING}), d, e);
    StoppedCounts(q, d, e);
  }

  lemma {:induction false} RecoverManyReports(w: World, stuck: seq<string>, e: Restart, n: nat)
    requires n <= |stuck| && CrashInv(w) && NoDuplicates(stuck) && (forall d :: d in stuck ==> InFlight(w, d))
    requires forall i :: i in w.instances ==> i in e.instances
    ensures Reported(w, stuck[..n], e, RecoverMany(Recovering(w, Report(|stuck|, 0, 0, 0, 0, 0)), stuck, e, n).report)
  {
    var start := Recovering(w, Report(|stuck|, 0, 0, 0, 0, 0));
    if n > 0 {
      RecoverManyReports(w, stuck, e, n - 1);
      RecoverManyRecovers(start, stuck, e, n - 1);
      var q, d := RecoverMany(start, stuck, e, n - 1), stuck[n - 1];
      assert d in stuck && d !in stuck[..n - 1] && stuck[..n] == stuck[..n - 1] + [d];
      assert InFlight(w, d);
      ReportOneMore(w, q, stuck[..n - 1], d, e);
    }
  }

  /**
   The report is true: each counter is the number of deployments found in the statuses it stands
   for, and the last one the number of containers of STARTING deployments that a worker was asked
   to stop and did.
   */
  lemma {:induction false} ReportIsTrue(w: World, e: Restart)
    requires CrashInv(w) && ListsAll(w, e)
    ensures Reported(w, e.deployments, e, Recover(w, e).report)
    ensures Recover(w, e).report.stuck == |WithStatus(w, e.deployments, {QUEUED, BUILDING, BUILT, SCHEDULING, STARTING})|
  {
    RecoverReports(w, e);
    ReportOfAll(w, e.deployments, e, Recover(w, e).report);
    ReportAddsUp(w, e);
    AllStuck(w, e.deployments);
  }

  lemma {:induction false} RecoverReports(w: World, e: Restart)
    requires CrashInv(w) && ListsAll(w, e)
    ensures Reported(w, Stuck(w, e.deployments), e, Recover(w, e).report)
  {
    var stuck := Stuck(w, e.deployments);
    RecoverManyReports(w, stuck, e, |stuck|);
    assert stuck[..|stuck|] == stuck;
  }

  lemma {:induction false} ReportOfAll(w: World, all: seq<string>, e: Restart, r: Report)
    requires Reported(w, Stuck(w, all), e, r)
    ensures Reported(w, all, e, r)
  {
    StuckOfStatus(w, all, {QUEUED});
    StuckOfStatus(w, all, {BUILDING});
    StuckOfStatus(w, all, {BUILT, SCHEDULING});
    StuckOfStatus(w, all, {STARTING});
  }

  lemma {:induction false} StuckOfStatus(w: World, all: seq<string>, among: set<DeploymentStatus>)
    requires among <= {QUEUED, BUILDING, BUILT, SCHEDULING, STARTING}
    ensures WithStatus(w, Stuck(w, all), among) == WithStatus(w, all, among)
  {
  }

  lemma {:induction false} AllStuck(w: World, all: seq<string>)
    requires NoDuplicates(all)
    ensures |WithStatus(w, all, {QUEUED, BUILDING, BUILT, SCHEDULING, STARTING})| == |Stuck(w, all)|
  {
    var stuck := Stuck(w, all);
    assert WithStatus(w, all, {QUEUED, BUILDING, BUILT, SCHEDULING, STARTING}) == set d | d in stuck;
    Distinct(stuck);
  }

  lemma {:induction false} Distinct(s: seq<string>)
    requires NoDuplicates(s)
    ensures |set d | d in s| == |s|
  {
    if s != [] {
      var front, last := s[..|s| - 1], s[|s| - 1];
      Distinct(front);
      assert (set d | d in s) == (set d | d in front) + {last};
    }
  }
}
