/**
 What recovery guarantees, for any state a crash can leave: deployments in flight end
 FAILED with nothing of theirs left, everything else is as it was.
 */
module RecoverySafety {
  import opened Scheduler
  import opened Cluster
  import opened Deployments
  import opened Recovery
  import opened CrashSafety
  import Books
  import Runs

  /** A healthy worker that answers every call made while `d` is cleaned up. */
  ghost predicate Responds(w: World, d: string, e: Restart, k: string) {
    && k in w.workers && w.workers[k].health == Healthy
    && e.answers(d, k).dialed && e.answers(d, k).listed && forall key :: e.answers(d, k).stops(key)
  }

  // ----- containers

  /** The keys of `d`'s containers hit no other deployment's. */
  ghost predicate OwnsItsKeys(cs: set<Container>, d: string) {
    forall c, x :: c in cs && x in cs && Owner(c) == d && Hits(c, x) ==> Owner(x) == d
  }

  ghost predicate Gone(cs: set<Container>, d: string, k: string) {
    forall c :: c in cs && c.worker == k ==> Owner(c) != d
  }

  ghost predicate OthersKept(before: set<Container>, after: set<Container>, d: string) {
    after <= before && forall c :: c in before && Owner(c) != d ==> c in after
  }

  lemma {:induction false} StopAllDoes(cs: set<Container>, k: string, d: string, victims: set<Container>)
    requires OwnsItsKeys(cs, d) && victims <= Labelled(cs, k, d)
    ensures OthersKept(cs, StopAll(cs, k, victims), d)
    ensures victims == Labelled(cs, k, d) ==> Gone(StopAll(cs, k, victims), d, k)
  {
    forall c | c in cs && Owner(c) != d ensures c in StopAll(cs, k, victims) {
      forall x | x in victims && c.worker == k ensures c.key != x.key && c.id != x.key {
        assert !Hits(x, c);
      }
    }
    if victims == Labelled(cs, k, d) {
      forall c | c in StopAll(cs, k, victims) && c.worker == k ensures Owner(c) != d {
        assert Owner(c) == d ==> c in victims;
      }
    }
  }

  ghost predicate CleanedWorkers(w: World, cs: set<Container>, d: string, e: Restart, n: nat) {
    n <= |e.workers| && forall j :: 0 <= j < n && Responds(w, d, e, e.workers[j]) ==> Gone(cs, d, e.workers[j])
  }

  lemma {:induction false} CleanUpDoes(w: World, d: string, e: Restart, n: nat)
    requires n <= |e.workers| && OwnsItsKeys(w.containers, d)
    ensures OthersKept(w.containers, CleanUp(w, d, e, n).containers, d)
    ensures CleanedWorkers(w, CleanUp(w, d, e, n).containers, d, e, n)
  {
    if n > 0 {
      CleanUpDoes(w, d, e, n - 1);
      var k, cs := e.workers[n - 1], CleanUp(w, d, e, n - 1).containers;
      VictimsStopped(w, cs, k, d, e);
      OneMoreCleaned(w, cs, StopAll(cs, k, VictimsOn(w, cs, k, d, e.answers(d, k))), d, e, n);
    }
  }

  lemma {:induction false} VictimsStopped(w: World, cs: set<Container>, k: string, d: string, e: Restart)
    requires OwnsItsKeys(cs, d)
    ensures var after := StopAll(cs, k, VictimsOn(w, cs, k, d, e.answers(d, k)));
            OthersKept(cs, after, d) && (Responds(w, d, e, k) ==> Gone(after, d, k))
  {
    var victims := VictimsOn(w, cs, k, d, e.answers(d, k));
    StopAllDoes(cs, k, d, victims);
    assert Responds(w, d, e, k) ==> victims == Labelled(cs, k, d);
  }

  lemma {:induction false} OneMoreCleaned(w: World, cs: set<Container>, after: set<Container>, d: string,
                                          e: Restart, n: nat)
    requires 0 < n <= |e.workers| && after <= cs && CleanedWorkers(w, cs, d, e, n - 1)
    requires Responds(w, d, e, e.workers[n - 1]) ==> Gone(after, d, e.workers[n - 1])
    ensures CleanedWorkers(w, after, d, e, n)
  {
    forall j | 0 <= j < n && Responds(w, d, e, e.workers[j]) ensures Gone(after, d, e.workers[j]) {
      if j < n - 1 {
        assert Gone(cs, d, e.workers[j]);
      }
    }
  }

  // ----- records

  /** What failing does to a record. */
  function AfterFailing(inst: Instance, d: string, listed: bool, pendingOnly: bool): Instance {
    if listed && inst.deployment == d && (pendingOnly ==>
        inst.status == Pending) then inst.(status := InstanceStatus.Failed) else inst
  }

  ghost predicate FailedRecords(w: World, v: World, d: string, order: seq<string>, pendingOnly: bool) {
    && v == w.(instances := v.instances, byKey := v.byKey) && v.instances.Keys == w.instances.Keys
    && forall i :: i in w.instances ==> v.instances[i] == AfterFailing(w.instances[i], d, i in order, pendingOnly)
  }

  ghost predicate FailsOne(u: World, v: World, d: string, i: string, pendingOnly: bool) {
    && v == u.(instances := v.instances, byKey := v.byKey) && v.instances.Keys == u.instances.Keys
    && forall j :: j in u.instances ==> v.instances[j] == AfterFailing(u.instances[j], d, j == i, pendingOnly)
  }

  lemma {:induction false} FailsOneMore(w: World, u: World, v: World, d: string, order: seq<string>, i: string,
                                        pendingOnly: bool)
    requires FailedRecords(w, u, d, order, pendingOnly) && FailsOne(u, v, d, i, pendingOnly)
    ensures FailedRecords(w, v, d, order + [i], pendingOnly)
  {
    forall j | j in w.instances
      ensures v.instances[j] == AfterFailing(w.instances[j], d, j in order + [i], pendingOnly)
    {
      assert v.instances[j] == AfterFailing(u.instances[j], d, j == i, pendingOnly);
    }
  }

  lemma {:induction false} FailRecordsDoes(w: World, d: string, order: seq<string>, pendingOnly: bool, n: nat)
    requires n <= |order| && IDsMatch(w)
    ensures FailedRecords(w, FailRecords(w, d, order, pendingOnly, n), d, order[..n], pendingOnly)
  {
    if n > 0 {
      FailRecordsDoes(w, d, order, pendingOnly, n - 1);
      var u, i := FailRecords(w, d, order, pendingOnly, n - 1), order[n - 1];
      assert i in u.instances ==> u.instances[i].id == i;
      assert FailsOne(u, FailRecords(w, d, order, pendingOnly, n), d, i, pendingOnly);
      FailsOneMore(w, u, FailRecords(w, d, order, pendingOnly, n), d, order[..n - 1], i, pendingOnly);
      assert order[..n] == order[..n - 1] + [i];
    }
  }

  // ----- one deployment

  /** The record of a deployment found in flight, once failed: an image whose build was cut short is forgotten. */
  function FailedRecord(dep: Deployment): Deployment {
    if dep.status == BUILDING then dep.(status := FAILED, image := "", digest := "") else dep.(status := FAILED)
  }

  /** Everything but `d` is as before; `d` is failed and its records and reachable containers are gone. */
  ghost predicate Resolved(w: World, v: World, d: string, e: Restart) {
    && v.workers == w.workers && v.targets == w.targets
    && d in w.deployments && v.deployments.Keys == w.deployments.Keys
    && v.deployments[d] == FailedRecord(w.deployments[d])
    && (forall x :: x in w.deployments && x != d ==> v.deployments[x] == w.deployments[x])
    && v.instances.Keys == w.instances.Keys
    && (forall i :: i in w.instances && w.instances[i].deployment != d ==> v.instances[i] == w.instances[i])
    && (forall i :: i in w.instances && w.instances[i].deployment == d ==>
        v.instances[i] == w.instances[i].(status := InstanceStatus.Failed))
    && OthersKept(w.containers, v.containers, d)
    && (forall k :: k in e.workers && Responds(w, d, e, k) ==> Gone(v.containers, d, k))
  }

  lemma {:induction false} EarlyResolved(w: World, v: World, d: string, e: Restart)
    requires CrashInv(w) && d in w.deployments && d in v.deployments && Early(w.deployments[d].status)
    requires v == w.(deployments := w.deployments[d := v.deployments[d]], instances := v.instances, byKey := v.byKey)
    requires v.deployments[d] == FailedRecord(w.deployments[d]) && v.instances == w.instances
    ensures Resolved(w, v, d, e)
  {
  }

  /** With no record of `d`, failing its records changes none. */
  lemma {:induction false} NoneToFail(w: World, v: World, d: string, order: seq<string>, pendingOnly: bool)
    requires FailedRecords(w, v, d, order, pendingOnly) && forall i :: i in w.instances ==>
          w.instances[i].deployment != d
    ensures v.instances == w.instances
  {
  }

  lemma {:induction false} StartingResolved(w: World, d: string, e: Restart)
    requires CrashInv(w) && d in w.deployments && w.deployments[d].status == STARTING
    requires forall i :: i in w.instances ==> i in e.instances
    ensures var cleaned := w.(containers := CleanUp(w, d, e, |e.workers|).containers);
            Resolved(w, SetStatus(FailRecords(cleaned, d, e.instances, false, |e.instances|), d, FAILED), d, e)
  {
    assert InFlight(w, d);
    CleanUpDoes(w, d, e, |e.workers|);
    var cleaned := w.(containers := CleanUp(w, d, e, |e.workers|).containers);
    FailRecordsDoes(cleaned, d, e.instances, false, |e.instances|);
    assert e.instances[..|e.instances|] == e.instances;
    var failed := FailRecords(cleaned, d, e.instances, false, |e.instances|);
    assert FailedRecords(cleaned, failed, d, e.instances, false);
    forall k | k in e.workers && Responds(w, d, e, k) ensures Gone(cleaned.containers, d, k) {
      var j :| 0 <= j < |e.workers| && e.workers[j] == k;
      assert Responds(w, d, e, e.workers[j]);
    }
  }

  lemma {:induction false} RecoverOneResolves(r: Recovering, d: string, e: Restart)
    requires CrashInv(r.world) && InFlight(r.world, d)
    requires forall i :: i in r.world.instances ==> i in e.instances
    ensures Resolved(r.world, RecoverOne(r, d, e).world, d, e)
  {
    var w := r.world;
    if w.deployments[d].status == STARTING {
      StartingResolved(w, d, e);
    } else {
      if w.deployments[d].status == BUILT || w.deployments[d].status == SCHEDULING {
        FailRecordsDoes(w, d, e.instances, true, |e.instances|);
        NoneToFail(w, FailRecords(w, d, e.instances, true, |e.instances|), d, e.instances[..|e.instances|], true);
      }
      EarlyResolved(w, RecoverOne(r, d, e).world, d, e);
    }
  }

  lemma {:induction false} ResolvedKeepsInv(w: World, v: World, d: string, e: Restart)
    requires CrashInv(w) && Resolved(w, v, d, e)
    ensures CrashInv(v)
  {
    ResolvedKeepsOwned(w, v, d, e);
    ResolvedKeepsNames(w, v, d, e);
  }

  lemma {:induction false} ResolvedKeepsNames(w: World, v: World, d: string, e: Restart)
    requires NothingEarly(w) && IDsMatch(w) && Resolved(w, v, d, e)
    ensures NothingEarly(v) && IDsMatch(v)
  {
    forall i | i in v.instances
      ensures v.instances[i].deployment == w.instances[i].deployment && v.instances[i].id == i
    {
      assert w.instances[i].id == i;
    }
    EarlyOnlyIfEarly(w, v);
  }

  lemma {:induction false} EarlyOnlyIfEarly(w: World, v: World)
    requires NothingEarly(w) && v.deployments.Keys == w.deployments.Keys && v.containers <= w.containers
    requires forall x :: x in w.deployments && Early(v.deployments[x].status) ==> Early(w.deployments[x].status)
    requires v.instances.Keys == w.instances.Keys
    requires forall i :: i in w.instances ==> v.instances[i].deployment == w.instances[i].deployment
    ensures NothingEarly(v)
  {
  }

  lemma {:induction false} ResolvedKeepsOwned(w: World, v: World, d: string, e: Restart)
    requires KeysOwned(w) && Resolved(w, v, d, e)
    ensures KeysOwned(v)
  {
    forall c | c in v.containers && InFlight(v, Owner(c)) ensures InFlight(w, Owner(c)) {
      assert Owner(c) != d;
    }
    OwnedCarriesOver(w, v);
  }

  // ----- all of them

  /** Compared with the crash state, the deployments in `done` are resolved and the rest is as it was. */
  ghost predicate Recovered(w: World, v: World, done: seq<string>, e: Restart) {
    && v.workers == w.workers && v.targets == w.targets
    && v.deployments.Keys == w.deployments.Keys && v.instances.Keys == w.instances.Keys
    && (forall d :: d in w.deployments ==> v.deployments[d] == if d in done then FailedRecord(w.deployments[d]) else w.deployments[d])
    && (forall i :: i in w.instances ==>
          v.instances[i] == if w.instances[i].deployment in done then w.instances[i].(status := InstanceStatus.Failed) else w.instances[i])
    && v.containers <= w.containers
    && (forall c :: c in w.containers && Owner(c) !in done ==> c in v.containers)
    && (forall d, k :: d in done && k in e.workers && Responds(w, d, e, k) ==> Gone(v.containers, d, k))
  }

  lemma {:induction false} OneMoreRecovered(w: World, u: World, v: World, done: seq<string>, d: string, e: Restart)
    requires Recovered(w, u, done, e) && Resolved(u, v, d, e) && d in w.deployments && d !in done
    ensures Recovered(w, v, done + [d], e)
  {
    assert forall x :: x in done + [d] <==> x in done || x == d;
    forall x, k | x in done + [d] && k in e.workers && Responds(w, x, e, k) ensures Gone(v.containers, x, k) {
      assert Responds(u, x, e, k);
      if x in done {
        assert Gone(u.containers, x, k);
      }
    }
  }

  lemma {:induction false} RecoverManyRecovers(r: Recovering, stuck: seq<string>, e: Restart, n: nat)
    requires n <= |stuck| && CrashInv(r.world) && NoDuplicates(stuck)
    requires forall d :: d in stuck ==> InFlight(r.world, d)
    requires forall i :: i in r.world.instances ==> i in e.instances
    ensures Recovered(r.world, RecoverMany(r, stuck, e, n).world, stuck[..n], e)
    ensures CrashInv(RecoverMany(r, stuck, e, n).world)
  {
    if n > 0 {
      RecoverManyRecovers(r, stuck, e, n - 1);
      var q, d := RecoverMany(r, stuck, e, n - 1), stuck[n - 1];
      assert d in stuck && d !in stuck[..n - 1];
      assert InFlight(r.world, d);
      assert stuck[..n] == stuck[..n - 1] + [d];
      RecoversOneMore(r.world, q, stuck[..n - 1], d, e);
    }
  }

  lemma {:induction false} RecoversOneMore(w: World, q: Recovering, done: seq<string>, d: string, e: Restart)
    requires Recovered(w, q.world, done, e) && CrashInv(q.world) && InFlight(w, d) && d !in done
    requires forall i :: i in w.instances ==> i in e.instances
    ensures Recovered(w, RecoverOne(q, d, e).world, done + [d], e) && CrashInv(RecoverOne(q, d, e).world)
  {
    RecoverOneResolves(q, d, e);
    OneMoreRecovered(w, q.world, RecoverOne(q, d, e).world, done, d, e);
    ResolvedKeepsInv(q.world, RecoverOne(q, d, e).world, d, e);
  }

  /** The lists name every deployment once, and every instance and worker. */
  ghost predicate ListsAll(w: World, e: Restart) {
    && NoDuplicates(e.deployments) && (forall d :: d in w.deployments ==> d in e.deployments)
    && (forall i :: i in w.instances ==> i in e.instances)
    && (forall k :: k in w.workers ==> k in e.workers)
  }

  ghost predicate InstanceGone(w: World, v: World, d: string) {
    forall i :: i in v.instances && v.instances[i].deployment == d ==>
        v.instances[i].status != Pending && v.instances[i].status != Running
  }

  /** What recovery leaves of a deployment that was in flight. */
  ghost predicate CleanlyFailed(w: World, v: World, d: string, e: Restart) {
    && d in w.deployments && d in v.deployments && v.deployments[d] == FailedRecord(w.deployments[d])
    && InstanceGone(w, v, d)
    && forall k :: Responds(w, d, e, k) ==> Gone(v.containers, d, k)
  }

  /** A deployment's record, instances and containers are as they were. */
  ghost predicate UntouchedBy(w: World, v: World, d: string) {
    && (d in w.deployments <==> d in v.deployments) && (d in w.deployments ==> v.deployments[d] == w.deployments[d])
    && (forall i :: i in w.instances && w.instances[i].deployment == d ==>
        i in v.instances && v.instances[i] == w.instances[i])
    && (forall c :: c in w.containers && Owner(c) == d ==> c in v.containers)
  }

  ghost predicate OnlyLegal(w: World, v: World) {
    forall d :: d in w.deployments ==> d in v.deployments && Legal(w.deployments[d].status, v.deployments[d].status)
  }

  ghost predicate Settled(w: World, v: World, e: Restart) {
    && (forall d :: InFlight(w, d) ==> CleanlyFailed(w, v, d, e))
    && (forall d :: !InFlight(w, d) ==> UntouchedBy(w, v, d))
    && OnlyLegal(w, v)
    && (forall d :: !InFlight(v, d))
  }

  lemma {:induction false} DoneIsFailed(w: World, v: World, stuck: seq<string>, e: Restart, d: string)
    requires Recovered(w, v, stuck, e) && d in stuck && d in w.deployments
    requires forall k :: k in w.workers ==> k in e.workers
    ensures CleanlyFailed(w, v, d, e)
  {
    forall k | Responds(w, d, e, k) ensures Gone(v.containers, d, k) {
      assert k in e.workers;
    }
  }

  lemma {:induction false} OtherIsUntouched(w: World, v: World, stuck: seq<string>, e: Restart, d: string)
    requires Recovered(w, v, stuck, e) && d !in stuck
    ensures UntouchedBy(w, v, d)
  {
  }

  lemma {:induction false} NoneInFlight(w: World, v: World, stuck: seq<string>, e: Restart, d: string)
    requires Recovered(w, v, stuck, e) && (d in stuck <==> InFlight(w, d))
    ensures !InFlight(v, d)
    ensures d in w.deployments ==> d in v.deployments && Legal(w.deployments[d].status, v.deployments[d].status)
  {
  }

  lemma {:induction false} RecoveredIsSettled(w: World, v: World, stuck: seq<string>, e: Restart)
    requires Recovered(w, v, stuck, e) && (forall d :: d in stuck <==> InFlight(w, d))
    requires forall k :: k in w.workers ==> k in e.workers
    ensures Settled(w, v, e)
  {
    forall d | InFlight(w, d) ensures CleanlyFailed(w, v, d, e) {
      DoneIsFailed(w, v, stuck, e, d);
    }
    forall d | !InFlight(w, d) ensures UntouchedBy(w, v, d) {
      OtherIsUntouched(w, v, stuck, e, d);
    }
    forall d ensures !InFlight(v, d)
             ensures d in w.deployments ==> d in v.deployments && Legal(w.deployments[d].status, v.deployments[d].status)
    {
      NoneInFlight(w, v, stuck, e, d);
    }
  }

  lemma {:induction false} RecoverRecovers(w: World, e: Restart)
    requires CrashInv(w) && ListsAll(w, e)
    ensures Recovered(w, Recover(w, e).world, Stuck(w, e.deployments), e)
    ensures forall d :: d in Stuck(w, e.deployments) <==> InFlight(w, d)
  {
    var stuck := Stuck(w, e.deployments);
    forall d ensures d in stuck <==> InFlight(w, d) {}
    RecoverManyRecovers(Recovering(w, Report(|stuck|, 0, 0, 0, 0, 0)), stuck, e, |stuck|);
    assert stuck[..|stuck|] == stuck;
  }

  lemma {:induction false} RecoverySettles(w: World, e: Restart)
    requires CrashInv(w) && ListsAll(w, e)
    ensures Settled(w, Recover(w, e).world, e)
  {
    RecoverRecovers(w, e);
    RecoveredIsSettled(w, Recover(w, e).world, Stuck(w, e.deployments), e);
  }

  // ----- routing

  /** Instance `i` belongs to a deployment in flight. */
  ghost predicate OfStuck(w: World, i: string) {
    i in w.instances && InFlight(w, w.instances[i].deployment)
  }

  /** The router agrees with the records, but for instances of deployments in flight. */
  ghost predicate RoutedOutside(w: World) {
    forall project :: project != "" ==>
      NoDuplicates(TargetsOf(w, project))
      && forall i :: !OfStuck(w, i) ==> (i in TargetsOf(w, project) <==> Books.RunsFor(w, project, i))
  }

  ghost predicate StuckUnrouted(w: World) {
    forall project, i :: project != "" && i in TargetsOf(w, project) ==> !OfStuck(w, i)
  }

  lemma {:induction false} RunsAfterRecovery(w: World, v: World, stuck: seq<string>, e: Restart,
                                             project: string, i: string)
    requires Recovered(w, v, stuck, e) && (forall d :: d in stuck <==> InFlight(w, d))
    ensures Books.RunsFor(v, project, i) <==> Books.RunsFor(w, project, i) && !OfStuck(w, i)
  {
    if i in w.instances {
      assert w.instances[i].deployment in stuck <==> InFlight(w, w.instances[i].deployment);
    }
  }

  /**
   Recovery does not write the router's table: where the table agreed with the other records
   before, it agrees with all of them afterwards if and only if no instance of a deployment in
   flight was already routed.
   */
  lemma {:induction false} RoutesAfterRecovery(w: World, e: Restart)
    requires CrashInv(w) && ListsAll(w, e) && RoutedOutside(w)
    ensures Books.Routed(Recover(w, e).world) <==> StuckUnrouted(w)
  {
    var v := Recover(w, e).world;
    RecoverRecovers(w, e);
    forall project, i ensures Books.RunsFor(v, project, i) <==> Books.RunsFor(w, project, i) && !OfStuck(w, i) {
      RunsAfterRecovery(w, v, Stuck(w, e.deployments), e, project, i);
    }
    SameTableAgrees(w, v);
  }

  lemma {:induction false} SameTableAgrees(w: World, v: World)
    requires RoutedOutside(w) && v.targets == w.targets
    requires forall project, i :: Books.RunsFor(v, project, i) <==> Books.RunsFor(w, project, i) && !OfStuck(w, i)
    ensures Books.Routed(v) <==> StuckUnrouted(w)
  {
    if StuckUnrouted(w) {
      forall project | project != "" ensures Books.RoutedFor(v, project) {
        assert TargetsOf(v, project) == TargetsOf(w, project);
      }
    }
    if Books.Routed(v) {
      forall project, i | project != "" && i in TargetsOf(w, project) ensures !OfStuck(w, i) {
        assert Books.RoutedFor(v, project) && TargetsOf(v, project) == TargetsOf(w, project);
      }
    }
  }

  /** A crash right after an instance was routed leaves a route that recovery does not take back. */
  lemma {:induction false} CrashAfterRouteMisroutes(s: State, d: string, signature: string, o: Order, t: State,
                                                    e: Restart)
    requires Inv(s) && At(s, d, AtStarting) && o.id !in s.world.instances && s.world.deployments[d].project != ""
    requires Reaches(s, [CreateRecord(d, o), Launch(d, signature)] + [MarkRecord(d), RouteInstance(d)], t)
    requires ListsAll(t.world, e)
    ensures !Books.Routed(Recover(t.world, e).world)
  {
    ReachableKeepsInv(s, [CreateRecord(d, o), Launch(d, signature)] + [MarkRecord(d), RouteInstance(d)], t);
    RoutedStep(s, d, signature, o, t);
    var v, project := Recover(t.world, e).world, s.world.deployments[d].project;
    RecoverRecovers(t.world, e);
    assert OfStuck(t.world, o.id);
    RunsAfterRecovery(t.world, v, Stuck(t.world, e.deployments), e, project, o.id);
    assert TargetsOf(v, project) == TargetsOf(t.world, project);
    assert !Books.RoutedFor(v, project);
  }

  lemma {:induction false} RoutedStep(s: State, d: string, signature: string, o: Order, t: State)
    requires At(s, d, AtStarting) && o.id !in s.world.instances && s.world.deployments[d].project != "" && StagesFit(s)
    requires Reaches(s, [CreateRecord(d, o), Launch(d, signature)] + [MarkRecord(d), RouteInstance(d)], t)
    ensures o.id in t.world.instances && t.world.instances[o.id].deployment == d
    ensures t.world.deployments == s.world.deployments && InFlight(t.world, d)
    ensures o.id in TargetsOf(t.world, s.world.deployments[d].project)
  {
    var a, b := [CreateRecord(d, o), Launch(d, signature)], [MarkRecord(d), RouteInstance(d)];
    Runs.ExecAppend(Next, s, a, b);
    CreateStep(s, d, o);
    var s1 := Next(s, CreateRecord(d, o)).value;
    Runs.ExecTwo(Next, s, CreateRecord(d, o), Launch(d, signature));
    LaunchedState(s1, d, signature, o);
    var s2 := Next(s1, Launch(d, signature)).value;
    var w := s2.stages[d].t;
    MarkStep(s2, d, o, w);
    var s3 := Next(s2, MarkRecord(d)).value;
    RouteStep(s3, d, o, w);
    RegisterRoutes(s3.world, s.world.deployments[d].project, o.id, w);
    Runs.ExecTwo(Next, s2, MarkRecord(d), RouteInstance(d));
  }

  lemma {:induction false} LaunchedState(s: State, d: string, signature: string, o: Order)
    requires At(s, d, AtCreated(o)) && Next(s, Launch(d, signature)).Some?
    ensures var t := Next(s, Launch(d, signature)).value;
            && t.world == s.world.(containers := t.world.containers)
            && d in t.stages && t.stages[d].AtLaunched? && t.stages[d].o == o && At(t, d, t.stages[d])
  {
  }

  // ----- accounting

  /** The counters are right but for records not yet counted, all of deployments in flight. */
  ghost predicate CountedUpTo(w: World, uncounted: set<string>) {
    && "" !in w.workers && (forall i :: i in uncounted ==> OfStuck(w, i))
    && forall k :: k in w.workers ==>
         w.workers[k].id == k && w.workers[k].active == |Books.Assigned(w, k) - uncounted| <= w.workers[k].capacity
  }

  /** A live record of a deployment in flight has been counted on a registered worker. */
  ghost predicate StuckCounted(w: World, uncounted: set<string>) {
    exists i :: OfStuck(w, i) && i !in uncounted && w.instances[i].worker in w.workers && IsLive(w.instances[i].status)
  }

  lemma {:induction false} AssignedAfterRecovery(w: World, v: World, stuck: seq<string>, e: Restart, k: string)
    requires Recovered(w, v, stuck, e) && (forall d :: d in stuck <==> InFlight(w, d))
    ensures Books.Assigned(v, k) == set i | i in Books.Assigned(w, k) && !OfStuck(w, i)
  {
    forall i | i in w.instances ensures w.instances[i].deployment in stuck <==> OfStuck(w, i) {
      assert w.instances[i].deployment in stuck <==> InFlight(w, w.instances[i].deployment);
    }
  }

  lemma {:induction false} SubsetSize(a: set<string>, b: set<string>)
    requires a <= b
    ensures |a| == |b| <==> a == b
  {
    assert b == a + (b - a);
  }

  /**
   On one worker, the counter is right after recovery exactly if none of its counted records was
   of a deployment in flight.
   */
  lemma {:induction false} WorkerAfterRecovery(w: World, v: World, uncounted: set<string>, k: string)
    requires CountedUpTo(w, uncounted) && v.workers == w.workers && k in w.workers
    requires Books.Assigned(v, k) == set i | i in Books.Assigned(w, k) && !OfStuck(w, i)
    ensures Books.Balances(v, k) <==> forall i :: i in Books.Assigned(w, k) && OfStuck(w, i) ==> i in uncounted
  {
    var a, rest := Books.Assigned(w, k), Books.Assigned(v, k);
    forall i | i in a && i in uncounted ensures i !in rest {
      assert OfStuck(w, i);
    }
    SameSizeExactly(a, rest, uncounted);
  }

  /** What is left of `a` is as large as `a` without the uncounted exactly if nothing else went. */
  lemma {:induction false} SameSizeExactly(a: set<string>, rest: set<string>, uncounted: set<string>)
    requires rest <= a && forall i :: i in a && i in uncounted ==> i !in rest
    ensures |rest| == |a - uncounted| <==> forall i :: i in a && i !in rest ==> i in uncounted
  {
    SubsetSize(rest, a - uncounted);
  }

  /**
   Recovery does not write the counters: where they were right up to records not yet counted,
   the books balance afterwards if and only if no live record of a deployment in flight had
   been counted.
   */
  lemma {:induction false} AccountsAfterRecovery(w: World, e: Restart, uncounted: set<string>)
    requires CrashInv(w) && ListsAll(w, e) && CountedUpTo(w, uncounted)
    ensures Books.Ledger(Recover(w, e).world) <==> !StuckCounted(w, uncounted)
  {
    var v := Recover(w, e).world;
    RecoverRecovers(w, e);
    forall k | k in w.workers
      ensures Books.Balances(v, k) <==> forall i :: i in Books.Assigned(w, k) && OfStuck(w, i) ==> i in uncounted
    {
      AssignedAfterRecovery(w, v, Stuck(w, e.deployments), e, k);
      WorkerAfterRecovery(w, v, uncounted, k);
    }
    if i :| OfStuck(w, i) && i !in uncounted && w.instances[i].worker in w.workers && IsLive(w.instances[i].status) {
      assert i in Books.Assigned(w, w.instances[i].worker);
      assert !Books.Balances(v, w.instances[i].worker);
    }
  }

  function Resolutions(r: Report): nat {
    r.queued + r.building + r.scheduling + r.starting
  }

  lemma {:induction false} RecoverOneCounts(r: Recovering, d: string, e: Restart)
    requires InFlight(r.world, d)
    ensures Resolutions(RecoverOne(r, d, e).report) == Resolutions(r.report) + 1
    ensures RecoverOne(r, d, e).report.stuck == r.report.stuck
  {
  }

  lemma {:induction false} RecoverManyCounts(r: Recovering, stuck: seq<string>, e: Restart, n: nat)
    requires n <= |stuck| && CrashInv(r.world) && NoDuplicates(stuck)
    requires forall d :: d in stuck ==> InFlight(r.world, d)
    requires forall i :: i in r.world.instances ==> i in e.instances
    ensures Resolutions(RecoverMany(r, stuck, e, n).report) == Resolutions(r.report) + n
    ensures RecoverMany(r, stuck, e, n).report.stuck == r.report.stuck
  {
    if n > 0 {
      RecoverManyCounts(r, stuck, e, n - 1);
      RecoverManyRecovers(r, stuck, e, n - 1);
      var q, d := RecoverMany(r, stuck, e, n - 1), stuck[n - 1];
      assert d in stuck && d !in stuck[..n - 1];
      assert q.world.deployments[d] == r.world.deployments[d];
      RecoverOneCounts(q, d, e);
    }
  }

  /** The report accounts for every deployment found stuck exactly once. */
  lemma {:induction false} ReportAddsUp(w: World, e: Restart)
    requires CrashInv(w) && ListsAll(w, e)
    ensures Recover(w, e).report.stuck == Resolutions(Recover(w, e).report) == |Stuck(w, e.deployments)|
  {
    var stuck := Stuck(w, e.deployments);
    RecoverManyCounts(Recovering(w, Report(|stuck|, 0, 0, 0, 0, 0)), stuck, e, |stuck|);
  }

  lemma {:induction false} NoneStuck(w: World, order: seq<string>)
    requires forall d :: !InFlight(w, d)
    ensures Stuck(w, order) == []
  {
    var s := Stuck(w, order);
    assert s != [] ==> s[0] in s && InFlight(w, s[0]);
  }

  predicate HasStatus(w: World, d: string, among: set<DeploymentStatus>) {
    d in w.deployments && w.deployments[d].status in among
  }

  /** What recovery leaves, deployment by deployment according to the status it was found in. */
  ghost predicate SettledByStatus(w: World, v: World, e: Restart) {
    && (forall d :: HasStatus(w, d, {QUEUED, BUILDING, BUILT, SCHEDULING, STARTING}) ==> CleanlyFailed(w, v, d, e))
    && (forall d :: HasStatus(w, d, {RUNNING, FAILED, STOPPED, ROLLED_BACK}) ==> UntouchedBy(w, v, d))
    && (forall d :: d in v.deployments ==> HasStatus(v, d, {RUNNING, FAILED, STOPPED, ROLLED_BACK}))
  }

  lemma {:induction false} SettledIsByStatus(w: World, v: World, e: Restart)
    requires Settled(w, v, e)
    ensures SettledByStatus(w, v, e)
  {
    forall d | HasStatus(w, d, {QUEUED, BUILDING, BUILT, SCHEDULING, STARTING}) ensures CleanlyFailed(w, v, d, e) {
      assert InFlight(w, d);
    }
    forall d | HasStatus(w, d, {RUNNING, FAILED, STOPPED, ROLLED_BACK}) ensures UntouchedBy(w, v, d) {
      assert !InFlight(w, d);
    }
    forall d | d in v.deployments ensures HasStatus(v, d, {RUNNING, FAILED, STOPPED, ROLLED_BACK}) {
      assert !InFlight(v, d);
    }
  }

  /**
   Crash anywhere, then recover.  Whatever writes any number of pipelines have made when the
   control plane stops, recovery leaves every deployment in flight FAILED, with none of its
   instances pending or running and none of its containers on a healthy worker that answers;
   leaves every other deployment untouched; moves only along the lifecycle table; and a
   second recovery, whatever the workers then answer, does nothing.
   */
  lemma {:induction false} CrashThenRecover(s: State, steps: seq<Step>, t: State, e: Restart, again: Restart)
    requires Inv(s) && Reaches(s, steps, t) && ListsAll(t.world, e)
    ensures var v := Recover(t.world, e).world;
            && SettledByStatus(t.world, v, e)
            && OnlyLegal(t.world, v)
            && Recover(v, again) == Recovering(v, Report(0, 0, 0, 0, 0, 0))
  {
    ReachableKeepsInv(s, steps, t);
    RecoverySettles(t.world, e);
    SettledIsByStatus(t.world, Recover(t.world, e).world, e);
    NoneStuck(Recover(t.world, e).world, again.deployments);
  }
}
