/**
 One-pass convergence of the reconciler: from any cluster state with unique instance names,
 reachable healthy workers and calls that succeed, one pass leaves a world on which the next
 pass, with whatever order of lists, takes no action.
 */
module Convergence {
  import opened Wrappers
  import opened Scheduler
  import opened Diff
  import opened Cluster
  import opened Reconcile
  import opened ReconcileSafety
  import opened DiffFacts
  import Books

  // ----- a world with nothing left to do

  /** No container ID is the name of an instance. */
  ghost predicate Apart(w: World) {
    forall c, i :: c in w.containers && i in w.instances ==> c.id != i && c.id != w.instances[i].key
  }

  /** The instance whose ID or key is the container's key. */
  function Owner(w: World, c: Container): string {
    if c.key in w.instances then c.key else if c.key in w.byKey then w.byKey[c.key] else ""
  }

  ghost predicate Employed(w: World, c: Container) {
    IsDesired(w, Owner(w, c)) && Serves(w, c, Owner(w, c))
  }

  ghost predicate AllEmployed(w: World) {
    forall c :: c in w.containers && Managed(ObservedOf(c)) ==> Employed(w, c)
  }

  ghost predicate Single(w: World) {
    forall c, d, i :: IsDesired(w, i) && Serves(w, c, i) && Serves(w, d, i) ==> c == d
  }

  /** Every managed container serves a desired instance, and no two serve the same. */
  ghost predicate Tidy(w: World) {
    NamesUnique(w) && KeysFilled(w) && Apart(w) && AllEmployed(w) && Single(w)
  }

  /** The desired instances of a deployment that a container serves. */
  ghost function ServedSet(w: World, d: string): set<string> {
    set i | i in w.instances && IsDesired(w, i) && w.instances[i].deployment == d && Served(w, i)
  }

  ghost predicate Clean(w: World) {
    && Tidy(w)
    && (forall d :: |ServedSet(w, d)| <= Want(w, d))
    && (forall i {:trigger Served(w, i)} :: IsDesired(w, i) && !Served(w, i) ==>
        |ServedSet(w, w.instances[i].deployment)| >= Want(w, w.instances[i].deployment))
  }

  /** The replica count a deployment's record asks for, one if it asks for none. */
  ghost function RecordedCount(w: World, d: string): int
    requires d in w.deployments
  {
    if w.deployments[d].count > 0 then w.deployments[d].count else 1
  }

  /**
   Every deployment has at most as many served instances as its record asks for, and exactly
   that many if one of its desired instances is left unserved.
   */
  ghost predicate AtRecordedCounts(w: World) {
    forall d :: d in w.deployments ==>
      && |ServedSet(w, d)| <= RecordedCount(w, d)
      && ((exists i :: IsDesired(w, i) && w.instances[i].deployment == d && !Served(w, i)) ==>
            |ServedSet(w, d)| == RecordedCount(w, d))
  }

  lemma {:induction false} CleanCounts(w: World)
    requires Clean(w)
    ensures AtRecordedCounts(w)
  {
    forall d | d in w.deployments
      ensures |ServedSet(w, d)| <= RecordedCount(w, d)
      ensures (exists i :: IsDesired(w, i) && w.instances[i].deployment == d && !Served(w, i)) ==>
                |ServedSet(w, d)| == RecordedCount(w, d)
    {
      assert |ServedSet(w, d)| <= Want(w, d);
      if i :| IsDesired(w, i) && w.instances[i].deployment == d && !Served(w, i) {
        assert |ServedSet(w, w.instances[i].deployment)| >= Want(w, w.instances[i].deployment);
      }
    }
  }

  /** A desired instance is a running or repair-failed one of a RUNNING deployment; its entry is its record and its deployment's. */
  lemma {:induction false} DesiredExactly(w: World, i: string)
    ensures IsDesired(w, i) <==>
              && i in w.instances && w.instances[i].deployment in w.deployments
              && w.deployments[w.instances[i].deployment].status == RUNNING
              && (w.instances[i].status == Running || w.instances[i].status == RepairFailed)
    ensures IsDesired(w, i) ==>
              var m, inst, dep := DesiredOf(w, i), w.instances[i], w.deployments[w.instances[i].deployment];
              && m.instanceID == inst.id && m.instanceKey == inst.key && m.deploymentID == inst.deployment
              && m.workerID == inst.worker && m.image == dep.image && m.labels == dep.labels
  {
  }

  /** Where every deployment has each desired instance served, and just as many as its record asks for, a pass does nothing. */
  lemma {:induction false} FullyServedIsQuiet(w: World, e: Env)
    requires Tidy(w) && NoneDraining(w) && ListsAll(w, e)
    requires forall i :: IsDesired(w, i) ==> Served(w, i)
    requires forall d :: d in w.deployments ==> |ServedSet(w, d)| <= RecordedCount(w, d)
    ensures TotalActions(ReconcileSpec(w, e).actions) == 0 && ReconcileSpec(w, e).world == w
  {
    forall d ensures |ServedSet(w, d)| <= Want(w, d) {
      if d !in w.deployments {
        assert ServedSet(w, d) == {};
      }
    }
    CleanIsQuiet(w, e);
  }

  ghost predicate NoneDraining(w: World) {
    forall k :: k in w.workers ==> w.workers[k].state != Draining
  }

  // ----- counting pairs is counting served instances

  ghost function PairedIDs(matching: seq<Pair>, n: nat, d: string): set<string>
    requires n <= |matching|
  {
    set a | 0 <= a < n && matching[a].desired.deploymentID == d :: matching[a].desired.instanceID
  }

  lemma {:induction false} PairedIDsStep(matching: seq<Pair>, n: nat, d: string)
    requires n < |matching| && DistinctPairs(matching)
    ensures |PairedIDs(matching, n + 1, d)|
            == |PairedIDs(matching, n, d)| + if matching[n].desired.deploymentID == d then 1 else 0
  {
    var m, before := matching[n].desired, PairedIDs(matching, n, d);
    if m.deploymentID == d {
      assert PairedIDs(matching, n + 1, d) == before + {m.instanceID};
    } else {
      assert PairedIDs(matching, n + 1, d) == before;
    }
  }

  lemma {:induction false} PairedIDsCount(matching: seq<Pair>, n: nat, d: string)
    requires n <= |matching| && DistinctPairs(matching)
    ensures |PairedIDs(matching, n, d)| == MatchedOf(matching, n, d)
  {
    if n == 0 {
      assert PairedIDs(matching, n, d) == {};
    } else {
      PairedIDsCount(matching, n - 1, d);
      PairedIDsStep(matching, n - 1, d);
    }
  }

  /** Every served desired instance has a pair, and pairs serve. */
  ghost predicate PairsAll(w: World, matching: seq<Pair>) {
    MatchingFacts(w, matching) && forall i {:trigger Served(w, i)} :: IsDesired(w, i) && Served(w, i) ==>
        Pairs(matching, i)
  }

  lemma {:induction false} PairsAreServed(w: World, matching: seq<Pair>, d: string)
    requires PairsAll(w, matching)
    ensures ServedSet(w, d) == PairedIDs(matching, |matching|, d)
    ensures |ServedSet(w, d)| == Count(CountMatching(matching, |matching|), d) == MatchedOf(matching, |matching|, d)
  {
    var paired := PairedIDs(matching, |matching|, d);
    forall i ensures i in ServedSet(w, d) <==> i in paired {
      if i in ServedSet(w, d) {
        assert Pairs(matching, i);
        var a :| 0 <= a < |matching| && matching[a].desired.instanceID == i;
        assert PairServes(w, matching[a]);
      }
      if i in paired {
        var a :| 0 <= a < |matching| && matching[a].desired.deploymentID == d && matching[a].desired.instanceID == i;
        assert PairServes(w, matching[a]);
      }
    }
    PairedIDsCount(matching, |matching|, d);
    CountMatchingCounts(matching, |matching|, d);
  }

  // ----- a pass over a clean world

  lemma {:induction false} ExtrasAreUnmanaged(w: World, diff: DiffResult, k: nat)
    requires Tidy(w) && Facts(w, diff) && k < |diff.extra|
    ensures !Managed(diff.extra[k])
  {
    var o := diff.extra[k];
    var c := ContainerOf(o);
    if Managed(o) {
      assert Employed(w, c);
      var i := Owner(w, c);
      assert Served(w, i);
      assert Pairs(diff.matching, i);
      var a :| 0 <= a < |diff.matching| && diff.matching[a].desired.instanceID == i;
      assert PairServes(w, diff.matching[a]);
      assert diff.matching[a].observed == o;
      assert InPair(diff.matching, o) && o in diff.extra;
    }
  }

  lemma {:induction false} UnmanagedIsOnlyFlagged(p: Pass, extra: seq<Observed>, ok: nat -> bool, n: nat)
    requires n <= |extra| && forall k :: 0 <= k < |extra| ==> !Managed(extra[k])
    ensures var q := OrphanPhase(p, extra, ok, n);
            q.world == p.world && TotalActions(q.actions) == TotalActions(p.actions)
  {
    if n > 0 {
      UnmanagedIsOnlyFlagged(p, extra, ok, n - 1);
    }
  }

  lemma {:induction false} FullNeedsNoRepair(p: Pass, missing: seq<Desired>, attempts: nat -> Attempt, n: nat)
    requires n <= |missing|
    requires forall k :: 0 <= k < |missing| ==> Count(p.running, missing[k].deploymentID) >= Want(p.world, missing[k].deploymentID)
    ensures RepairPhase(p, missing, attempts, n) == p
  {
    if n > 0 {
      FullNeedsNoRepair(p, missing, attempts, n - 1);
    }
  }

  lemma {:induction false} NoExcessNoPrune(p: Pass, matching: seq<Pair>, order: seq<string>, ok: nat -> bool, n: nat)
    requires n <= |order|
    requires forall d :: Count(p.running, d) <= Want(p.world, d)
    ensures PrunePhase(p, matching, order, ok, n) == p
  {
    if n > 0 {
      NoExcessNoPrune(p, matching, order, ok, n - 1);
      assert Count(p.running, order[n - 1]) <= Want(p.world, order[n - 1]);
    }
  }

  lemma {:induction false} NothingToDrain(p: Pass, order: seq<(string, string)>, attempts: nat -> Attempt,
                                          oldStopped: nat -> bool, n: nat)
    requires n <= |order| && NoneDraining(p.world)
    ensures DrainPhase(p, order, attempts, oldStopped, n) == p
  {
    if n > 0 {
      NothingToDrain(p, order, attempts, oldStopped, n - 1);
    }
  }

  /** A pass over a clean world takes no action and changes nothing, whatever the order of its lists. */
  lemma {:induction false} CleanIsQuiet(w: World, e: Env)
    requires Clean(w) && NoneDraining(w) && ListsAll(w, e)
    ensures TotalActions(ReconcileSpec(w, e).actions) == 0
    ensures ReconcileSpec(w, e).world == w
  {
    FactsHold(w, e);
    var diff := DiffOf(w, e);
    forall k | 0 <= k < |diff.extra| ensures !Managed(diff.extra[k]) {
      ExtrasAreUnmanaged(w, diff, k);
    }
    UnmanagedIsOnlyFlagged(Start(w), diff.extra, e.orphanStopped, |diff.extra|);
    var counted := AfterOrphans(w, e).(running := CountMatching(diff.matching, |diff.matching|));
    QuietCounts(w, diff, counted);
    FullNeedsNoRepair(counted, diff.missing, e.repair, |diff.missing|);
    NoExcessNoPrune(counted, diff.matching, e.deploymentOrder, e.pruneStopped, |e.deploymentOrder|);
    NothingToDrain(counted, e.drainOrder, e.migrate, e.oldStopped, |e.drainOrder|);
  }

  lemma {:induction false} QuietCounts(w: World, diff: DiffResult, p: Pass)
    requires Clean(w) && Facts(w, diff) && p.world == w && p.running == CountMatching(diff.matching, |diff.matching|)
    ensures forall k :: 0 <= k < |diff.missing| ==>
          Count(p.running, diff.missing[k].deploymentID) >= Want(w, diff.missing[k].deploymentID)
    ensures forall d :: Count(p.running, d) <= Want(w, d)
  {
    forall d ensures Count(p.running, d) == |ServedSet(w, d)| {
      PairsAreServed(w, diff.matching, d);
    }
    forall k | 0 <= k < |diff.missing|
      ensures Count(p.running, diff.missing[k].deploymentID) >= Want(w, diff.missing[k].deploymentID)
    {
      assert IsEntry(w, diff.missing[k]) && !Served(w, diff.missing[k].instanceID);
    }
    forall d ensures Count(p.running, d) <= Want(w, d) {
      assert |ServedSet(w, d)| <= Want(w, d);
    }
  }

  // ----- the orphan phase leaves exactly the matched and the unknown containers

  /** Container IDs are apart from all names, and unique on a worker; so are non-empty instance keys. */
  ghost predicate ContainersDistinct(w: World) {
    && Apart(w)
    && (forall c, d :: c in w.containers && d in w.containers && c.worker == d.worker ==>
          c.id != d.key && (c.id == d.id || (c.key == d.key && c.key != "") ==> c == d))
  }

  /** A managed container is stopped by a name that reaches it alone. */
  lemma {:induction false} StopsItself(w: World, cs: set<Container>, c: Container)
    requires ContainersDistinct(w) && c in w.containers && cs <= w.containers
    ensures StopOn(cs, c.worker, StopName(ObservedOf(c))) == cs - {c}
  {
  }

  ghost predicate ComesFrom(extra: seq<Observed>, n: nat, c: Container)
    requires n <= |extra|
  {
    exists k :: 0 <= k < n && extra[k] == ObservedOf(c)
  }

  ghost predicate Swept(w: World, extra: seq<Observed>, n: nat, cs: set<Container>)
    requires n <= |extra|
  {
    forall c :: c in cs <==> c in w.containers && !(Managed(ObservedOf(c)) && ComesFrom(extra, n, c))
  }

  lemma {:induction false} SameContainer(c: Container, d: Container)
    requires ObservedOf(c) == ObservedOf(d)
    ensures c == d
  {
    assert ContainerOf(ObservedOf(c)) == c && ContainerOf(ObservedOf(d)) == d;
  }

  ghost predicate AreContainers(w: World, extra: seq<Observed>) {
    forall k :: 0 <= k < |extra| ==> extra[k] == ObservedOf(ContainerOf(extra[k])) && ContainerOf(extra[k]) in w.containers
  }

  lemma {:induction false} OrphansSwept(w: World, extra: seq<Observed>, ok: nat -> bool, n: nat)
    requires n <= |extra| && ContainersDistinct(w) && AreContainers(w, extra)
    requires forall k :: 0 <= k < |extra| ==> ok(k)
    ensures var q := OrphanPhase(Start(w), extra, ok, n).world;
            q == w.(containers := q.containers) && Swept(w, extra, n, q.containers)
  {
    if n == 0 {
      assert Swept(w, extra, 0, w.containers);
    } else {
      OrphansSwept(w, extra, ok, n - 1);
      var before, after := OrphanPhase(Start(w), extra, ok, n - 1).world, OrphanPhase(Start(w), extra, ok, n).world;
      var x := ContainerOf(extra[n - 1]);
      StopsItself(w, before.containers, x);
      forall c ensures ComesFrom(extra, n, c) <==> ComesFrom(extra, n - 1, c) || c == x {
        if ObservedOf(c) == extra[n - 1] {
          SameContainer(c, x);
        }
      }
      assert Managed(extra[n - 1]) ==> after.containers == before.containers - {x};
      assert Swept(w, extra, n, after.containers);
    }
  }

  /** Exactly the matched containers and the unknown ones remain. */
  ghost predicate KeptOnly(w: World, diff: DiffResult, v: World) {
    && v == w.(containers := v.containers)
    && forall c :: c in v.containers <==> c in w.containers && (!Managed(ObservedOf(c)) || InPair(diff.matching, ObservedOf(c)))
  }

  lemma {:induction false} SweepKeepsOnly(w: World, diff: DiffResult, v: World)
    requires ExtraFacts(w, diff)
    requires v == w.(containers := v.containers) && Swept(w, diff.extra, |diff.extra|, v.containers)
    ensures KeptOnly(w, diff, v)
  {
    forall c | c in w.containers
      ensures c in v.containers <==> !Managed(ObservedOf(c)) || InPair(diff.matching, ObservedOf(c))
    {
      KeptByThePair(w, diff, c);
    }
  }

  lemma {:induction false} KeptServes(w: World, diff: DiffResult, v: World)
    requires Facts(w, diff) && KeptOnly(w, diff, v)
    ensures forall i :: IsDesired(v, i) <==> IsDesired(w, i)
    ensures MatchingFacts(v, diff.matching)
    ensures forall i {:trigger Served(v, i)} {:trigger Served(w, i)} :: IsDesired(w, i) ==>
          (Served(v, i) <==> Served(w, i))
  {
    forall c, i ensures Serves(v, c, i) ==> Serves(w, c, i) {}
    forall a | 0 <= a < |diff.matching| ensures PairServes(v, diff.matching[a]) {
      assert PairServes(w, diff.matching[a]);
      assert InPair(diff.matching, diff.matching[a].observed);
    }
    forall i | IsDesired(w, i) ensures Served(v, i) <==> Served(w, i) {
      if Served(v, i) {
        var c :| Serves(v, c, i);
        assert Serves(w, c, i);
      }
      if Served(w, i) {
        assert Pairs(diff.matching, i);
        var a :| 0 <= a < |diff.matching| && diff.matching[a].desired.instanceID == i;
        assert PairServes(v, diff.matching[a]);
      }
    }
  }

  lemma {:induction false} KeptIsTidy(w: World, diff: DiffResult, v: World)
    requires NamesUnique(w) && KeysFilled(w) && ContainersDistinct(w) && KeptOnly(w, diff, v)
    requires MatchingFacts(v, diff.matching)
    ensures Tidy(v)
  {
    forall c | c in v.containers && Managed(ObservedOf(c)) ensures PairOf(v, diff.matching, c) && Employed(v, c) {
      assert InPair(diff.matching, ObservedOf(c));
      var a :| 0 <= a < |diff.matching| && diff.matching[a].observed == ObservedOf(c);
      assert PairServes(v, diff.matching[a]);
      SameContainer(c, ContainerOf(diff.matching[a].observed));
    }
    PairedIsSingle(v, diff.matching);
  }

  /** After the orphans are gone the world is tidy; what was served is, and what was missing waits. */
  lemma {:induction false} SweepIsTidy(w: World, diff: DiffResult, v: World)
    requires NamesUnique(w) && KeysFilled(w) && ContainersDistinct(w) && Facts(w, diff) && KeptOnly(w, diff, v)
    ensures Tidy(v) && PairsAll(v, diff.matching)
    ensures forall k :: 0 <= k < |diff.missing| ==>
          IsEntry(v, diff.missing[k]) && !Served(v, diff.missing[k].instanceID)
    ensures forall i {:trigger Served(v, i)} :: IsDesired(v, i) && !Served(v, i) ==> Lists(diff.missing, i)
  {
    KeptServes(w, diff, v);
    KeptIsTidy(w, diff, v);
    forall k | 0 <= k < |diff.missing| ensures IsEntry(v, diff.missing[k]) && !Served(v, diff.missing[k].instanceID) {
      assert IsEntry(w, diff.missing[k]) && !Served(w, diff.missing[k].instanceID);
    }
  }

  ghost predicate PairOf(w: World, matching: seq<Pair>, c: Container) {
    exists a :: 0 <= a < |matching| && PairServes(w, matching[a]) && ContainerOf(matching[a].observed) == c
  }

  lemma {:induction false} KeptByThePair(w: World, diff: DiffResult, c: Container)
    requires ExtraFacts(w, diff) && c in w.containers
    ensures ComesFrom(diff.extra, |diff.extra|, c) <==> !InPair(diff.matching, ObservedOf(c))
  {
    assert ObservedOf(c) in diff.extra <==> !InPair(diff.matching, ObservedOf(c));
  }

  lemma {:induction false} PairedIsSingle(w: World, matching: seq<Pair>)
    requires NamesUnique(w) && DistinctPairs(matching)
    requires forall c :: c in w.containers && Managed(ObservedOf(c)) ==> PairOf(w, matching, c)
    ensures Single(w)
  {
    forall c, d, i | IsDesired(w, i) && Serves(w, c, i) && Serves(w, d, i) ensures c == d {
      assert Managed(ObservedOf(c)) && Managed(ObservedOf(d));
      var a :| 0 <= a < |matching| && PairServes(w, matching[a]) && ContainerOf(matching[a].observed) == c;
      var b :| 0 <= b < |matching| && PairServes(w, matching[b]) && ContainerOf(matching[b].observed) == d;
      OneCarrier(w, c, i, matching[a].desired.instanceID);
      OneCarrier(w, d, i, matching[b].desired.instanceID);
      assert a == b;
    }
  }

  // ----- one repair serves one more instance

  /** The name is no instance's, so it may become a container ID. */
  ghost predicate Unnamed(w: World, id: string) {
    forall i :: i in w.instances ==> id != i && id != w.instances[i].key
  }

  /** `v` differs from `w` in that instance `i`, desired in both, is now served by `c` and was not served before. */
  ghost predicate ServesOneMore(w: World, v: World, i: string, c: Container) {
    && IsDesired(w, i) && !Served(w, i)
    && v.deployments == w.deployments && v.workers == w.workers && v.instances.Keys == w.instances.Keys
    && v.byKey == w.byKey
    && (forall j :: j in w.instances && j != i ==> v.instances[j] == w.instances[j])
    && SameRole(v.instances[i], w.instances[i])
    && v.containers == w.containers + {c} && c.key == w.instances[i].key && IsRunningState(c.state) && Unnamed(w, c.id)
  }

  ghost predicate SameRole(a: Instance, b: Instance) {
    a.id == b.id && a.key == b.key && a.deployment == b.deployment && (a.status == Running || a.status == b.status)
  }

  /** An unserved desired instance has no container by its key at all. */
  lemma {:induction false} NoneByThatKey(w: World, i: string)
    requires Tidy(w) && IsDesired(w, i) && !Served(w, i)
    ensures forall d :: d in w.containers ==> d.key != w.instances[i].key
  {
    forall d | d in w.containers ensures d.key != w.instances[i].key {
      if d.key == w.instances[i].key {
        assert Managed(ObservedOf(d));
        OneCarrier(w, d, i, Owner(w, d));
      }
    }
  }

  lemma {:induction false} RepairServesOneMore(p: Pass, m: Desired, a: Attempt)
    requires Tidy(p.world) && IsEntry(p.world, m) && !Served(p.world, m.instanceID)
    requires a.dialed && a.ran && RepairTarget(p.world, m, a.pick).Some? && Unnamed(p.world, a.newID)
    requires Count(p.running, m.deploymentID) < Want(p.world, m.deploymentID)
    ensures var t := RepairTarget(p.world, m, a.pick).value;
            ServesOneMore(p.world, RepairStep(p, m, a).world, m.instanceID,
                          NewContainer(t, a.newID, m.instanceKey, m.deploymentID, m.image, m.labels))
  {
    var w, i := p.world, m.instanceID;
    var t := RepairTarget(w, m, a.pick).value;
    var c := NewContainer(t, a.newID, m.instanceKey, m.deploymentID, m.image, m.labels);
    NoneByThatKey(w, i);
    assert RunOn(w.containers, c) == w.containers + {c};
    assert HasKey(w, m.instanceKey) && ByKey(w, m.instanceKey) == w.instances[i];
  }

  lemma {:induction false} OneMoreServed(w: World, v: World, i: string, c: Container)
    requires Tidy(w) && ServesOneMore(w, v, i, c)
    ensures forall j :: IsDesired(v, j) <==> IsDesired(w, j)
    ensures forall j :: Served(v, j) <==> Served(w, j) || j == i
    ensures NamesUnique(v) && forall x, j :: x in w.containers ==> (Serves(v, x, j) <==> Serves(w, x, j))
  {
    assert Serves(v, c, i);
    forall x, j | x in w.containers ensures Serves(v, x, j) <==> Serves(w, x, j) {}
    forall j ensures Served(v, j) <==> Served(w, j) || j == i {
      if Served(w, j) {
        var x :| Serves(w, x, j);
        assert Serves(v, x, j);
      }
      if Served(v, j) && j != i {
        var x :| Serves(v, x, j);
        if x in w.containers {
          assert Serves(w, x, j);
        } else {
          OneCarrier(v, x, i, j);
        }
      }
    }
  }

  lemma {:induction false} OneMoreIsTidy(w: World, v: World, i: string, c: Container)
    requires Tidy(w) && ServesOneMore(w, v, i, c)
    ensures Tidy(v)
  {
    OneMoreServed(w, v, i, c);
    assert Serves(v, c, i);
    forall x | x in v.containers && Managed(ObservedOf(x)) ensures Employed(v, x) {
      if x in w.containers {
        assert Employed(w, x);
        assert IsDesired(v, Owner(w, x)) && Serves(v, x, Owner(w, x));
      }
    }
    forall x, y, j | IsDesired(v, j) && Serves(v, x, j) && Serves(v, y, j) ensures x == y {
      OneServer(w, v, i, c, x, j);
      OneServer(w, v, i, c, y, j);
    }
  }

  /** Whoever serves `j` afterwards is the new container if j is i, and served it before otherwise. */
  lemma {:induction false} OneServer(w: World, v: World, i: string, c: Container, x: Container, j: string)
    requires Tidy(w) && ServesOneMore(w, v, i, c) && Serves(v, x, j)
    ensures if j == i then x == c else Serves(w, x, j)
  {
    OneMoreServed(w, v, i, c);
    if x == c && j != i {
      OneCarrier(v, x, i, j);
    }
    if x != c {
      assert Serves(w, x, j);
    }
  }

  /** The served instances of a deployment, as two worlds agree on them but for `i`. */
  lemma {:induction false} SetsDiffer(w: World, v: World, i: string, d: string)
    requires forall j :: j != i ==> (j in ServedSet(w, d) <==> j in ServedSet(v, d))
    requires i !in ServedSet(w, d)
    ensures |ServedSet(v, d)| == |ServedSet(w, d)| + if i in ServedSet(v, d) then 1 else 0
  {
    if i in ServedSet(v, d) {
      assert ServedSet(v, d) == ServedSet(w, d) + {i};
    } else {
      assert ServedSet(v, d) == ServedSet(w, d);
    }
  }

  lemma {:induction false} OneMoreInSet(w: World, v: World, i: string, c: Container, d: string)
    requires Tidy(w) && ServesOneMore(w, v, i, c)
    ensures |ServedSet(v, d)| == |ServedSet(w, d)| + if d == w.instances[i].deployment then 1 else 0
  {
    OneMoreServed(w, v, i, c);
    SetsDiffer(w, v, i, d);
  }

  /** The counts of the pass are the numbers of served instances. */
  ghost predicate CountsServed(p: Pass) {
    forall d :: Count(p.running, d) == |ServedSet(p.world, d)|
  }

  ghost predicate Full(p: Pass, d: string) {
    Count(p.running, d) >= Want(p.world, d)
  }

  ghost predicate MatchedStill(p: Pass, matching: seq<Pair>) {
    DistinctPairs(matching) && forall a :: 0 <= a < |matching| ==> PairServes(p.world, matching[a])
  }

  /** A deployment above its wanted count has no served instance but the matched ones. */
  ghost predicate ExcessIsMatched(p: Pass, matching: seq<Pair>) {
    forall d :: Count(p.running, d) > Want(p.world, d) ==> Count(p.running, d) == MatchedOf(matching, |matching|, d)
  }

  ghost predicate Waiting(p: Pass, missing: seq<Desired>, n: nat) {
    && (forall k :: n <= k < |missing| ==> IsEntry(p.world, missing[k]) && !Served(p.world, missing[k].instanceID))
    && (forall i {:trigger Served(p.world, i)} :: IsDesired(p.world, i) && !Served(p.world, i) ==>
          Full(p, p.world.instances[i].deployment) || ListsFrom(missing, n, i))
  }

  ghost predicate ListsFrom(missing: seq<Desired>, n: nat, i: string) {
    exists k :: n <= k < |missing| && missing[k].instanceID == i
  }

  ghost predicate RepairInv(p: Pass, diff: DiffResult, n: nat) {
    && Tidy(p.world) && CountsServed(p)
    && MatchedStill(p, diff.matching) && ExcessIsMatched(p, diff.matching)
    && DistinctEntries(diff.missing) && Waiting(p, diff.missing, n)
  }

  lemma {:induction false} FullStepKeeps(p: Pass, diff: DiffResult, n: nat)
    requires RepairInv(p, diff, n) && n < |diff.missing| && Full(p, diff.missing[n].deploymentID)
    ensures RepairInv(p, diff, n + 1)
  {
    var missing := diff.missing;
    forall i | IsDesired(p.world, i) && !Served(p.world, i)
      ensures Full(p, p.world.instances[i].deployment) || ListsFrom(missing, n + 1, i)
    {
      if !Full(p, p.world.instances[i].deployment) {
        var k :| n <= k < |missing| && missing[k].instanceID == i;
        assert IsEntry(p.world, missing[k]);
        assert k != n;
      }
    }
  }

  /** The names of the instances are the same. */
  ghost predicate SameNames(w: World, v: World) {
    v.instances.Keys == w.instances.Keys && forall i :: i in w.instances ==> v.instances[i].key == w.instances[i].key
  }

  lemma {:induction false} CountsAfterRepair(p: Pass, q: Pass, i: string, c: Container)
    requires Tidy(p.world) && CountsServed(p) && ServesOneMore(p.world, q.world, i, c)
    requires var d := p.world.instances[i].deployment; q.running == p.running[d := Count(p.running, d) + 1]
    ensures CountsServed(q)
  {
    forall d ensures Count(q.running, d) == |ServedSet(q.world, d)| {
      OneMoreInSet(p.world, q.world, i, c, d);
      assert Count(p.running, d) == |ServedSet(p.world, d)|;
    }
  }

  lemma {:induction false} ExcessAfterRepair(p: Pass, q: Pass, matching: seq<Pair>, d: string)
    requires ExcessIsMatched(p, matching) && q.world.deployments == p.world.deployments && !Full(p, d)
    requires q.running == p.running[d := Count(p.running, d) + 1]
    ensures ExcessIsMatched(q, matching)
  {
    forall e | Count(q.running, e) > Want(q.world, e)
      ensures Count(q.running, e) == MatchedOf(matching, |matching|, e)
    {
      assert Count(p.running, e) > Want(p.world, e);
    }
  }

  lemma {:induction false} RepairedKeeps(p: Pass, q: Pass, diff: DiffResult, n: nat, c: Container)
    requires RepairInv(p, diff, n) && n < |diff.missing| && !Full(p, diff.missing[n].deploymentID)
    requires ServesOneMore(p.world, q.world, diff.missing[n].instanceID, c)
    requires var d := diff.missing[n].deploymentID; q.running == p.running[d := Count(p.running, d) + 1]
    ensures RepairInv(q, diff, n + 1) && SameNames(p.world, q.world)
  {
    var i := diff.missing[n].instanceID;
    assert p.world.instances[i].deployment == diff.missing[n].deploymentID by {
      assert IsEntry(p.world, diff.missing[n]);
    }
    ExcessAfterRepair(p, q, diff.matching, diff.missing[n].deploymentID);
    WaitingAfterRepair(p, q, diff.missing, n, c);
    CountsAfterRepair(p, q, i, c);
    MatchedAfterRepair(p, q, diff.matching, i, c);
    OneMoreIsTidy(p.world, q.world, i, c);
  }

  lemma {:induction false} RepairStepKeeps(p: Pass, diff: DiffResult, n: nat, a: Attempt)
    requires RepairInv(p, diff, n) && n < |diff.missing| && Unnamed(p.world, a.newID)
    requires a.dialed && a.ran && RepairTarget(p.world, diff.missing[n], a.pick).Some?
    ensures RepairInv(RepairStep(p, diff.missing[n], a), diff, n + 1)
    ensures SameNames(p.world, RepairStep(p, diff.missing[n], a).world)
  {
    var m := diff.missing[n];
    if Full(p, m.deploymentID) {
      FullStepKeeps(p, diff, n);
    } else {
      var c := NewContainer(RepairTarget(p.world, m, a.pick).value, a.newID, m.instanceKey, m.deploymentID, m.image, m.labels);
      assert IsEntry(p.world, m) && !Served(p.world, m.instanceID);
      RepairServesOneMore(p, m, a);
      RepairedKeeps(p, RepairStep(p, m, a), diff, n, c);
    }
  }

  lemma {:induction false} MatchedAfterRepair(p: Pass, q: Pass, matching: seq<Pair>, i: string, c: Container)
    requires Tidy(p.world) && ServesOneMore(p.world, q.world, i, c) && MatchedStill(p, matching)
    ensures MatchedStill(q, matching)
  {
    OneMoreServed(p.world, q.world, i, c);
    forall a | 0 <= a < |matching| ensures PairServes(q.world, matching[a]) {
      var x := ContainerOf(matching[a].observed);
      assert PairServes(p.world, matching[a]);
      assert Serves(p.world, x, matching[a].desired.instanceID);
      assert Serves(q.world, x, matching[a].desired.instanceID);
      assert matching[a].desired.instanceID != i;
    }
  }

  lemma {:induction false} WaitingAfterRepair(p: Pass, q: Pass, missing: seq<Desired>, n: nat, c: Container)
    requires Tidy(p.world) && n < |missing| && DistinctEntries(missing) && Waiting(p, missing, n)
    requires ServesOneMore(p.world, q.world, missing[n].instanceID, c)
    requires forall d :: Count(q.running, d) >= Count(p.running, d)
    ensures Waiting(q, missing, n + 1)
  {
    var w, v, i := p.world, q.world, missing[n].instanceID;
    OneMoreServed(w, v, i, c);
    forall k | n + 1 <= k < |missing| ensures IsEntry(v, missing[k]) && !Served(v, missing[k].instanceID) {
      assert IsEntry(w, missing[k]) && !Served(w, missing[k].instanceID);
      assert missing[k].instanceID != i;
    }
    forall j | IsDesired(v, j) && !Served(v, j)
      ensures Full(q, v.instances[j].deployment) || ListsFrom(missing, n + 1, j)
    {
      assert IsDesired(w, j) && !Served(w, j);
      if !Full(q, v.instances[j].deployment) {
        assert !Full(p, w.instances[j].deployment);
        var k :| n <= k < |missing| && missing[k].instanceID == j;
        assert k != n;
      }
    }
  }

  ghost predicate AllUnnamed(w: World, attempts: nat -> Attempt, n: nat) {
    forall k :: 0 <= k < n ==> Unnamed(w, attempts(k).newID)
  }

  /** What the first world promises about attempt `k` holds in a later world of the phase. */
  lemma {:induction false} AttemptStillGood(w: World, v: World, missing: seq<Desired>, attempts: nat -> Attempt, k: nat)
    requires k < |missing| && RepairsSucceed(w, missing, attempts) && AllUnnamed(w, attempts, |missing|)
    requires SameNames(w, v) && v.workers == w.workers
    ensures var a := attempts(k); a.dialed && a.ran && RepairTarget(v, missing[k], a.pick).Some? && Unnamed(v, a.newID)
  {
    var a := attempts(k);
    assert RepairTarget(v, missing[k], a.pick) == RepairTarget(w, missing[k], a.pick);
    assert Unnamed(w, a.newID);
  }

  /** Whatever every step keeps, the phase keeps. */
  lemma {:induction false} RepairFold(p: Pass, missing: seq<Desired>, attempts: nat -> Attempt, n: nat,
                                      inv: (Pass, nat) -> bool)
    requires n <= |missing| && inv(p, 0)
    requires forall q, k :: 0 <= k < |missing| && inv(q, k) ==> inv(RepairStep(q, missing[k], attempts(k)), k + 1)
    ensures inv(RepairPhase(p, missing, attempts, n), n)
  {
    if n > 0 {
      RepairFold(p, missing, attempts, n - 1, inv);
    }
  }

  ghost predicate Repairing(p: Pass, q: Pass, diff: DiffResult, n: nat) {
    RepairInv(q, diff, n) && SameNames(p.world, q.world) && q.world.workers == p.world.workers
  }

  lemma {:induction false} RepairingStep(p: Pass, q: Pass, diff: DiffResult, attempts: nat -> Attempt, k: nat)
    requires k < |diff.missing| && RepairsSucceed(p.world, diff.missing, attempts)
    requires AllUnnamed(p.world, attempts, |diff.missing|)
    requires Repairing(p, q, diff, k)
    ensures Repairing(p, RepairStep(q, diff.missing[k], attempts(k)), diff, k + 1)
  {
    AttemptStillGood(p.world, q.world, diff.missing, attempts, k);
    RepairStepKeeps(q, diff, k, attempts(k));
  }

  lemma {:induction false} RepairPhaseKeeps(p: Pass, diff: DiffResult, attempts: nat -> Attempt)
    requires RepairInv(p, diff, 0) && RepairsSucceed(p.world, diff.missing, attempts)
    requires AllUnnamed(p.world, attempts, |diff.missing|)
    ensures RepairInv(RepairPhase(p, diff.missing, attempts, |diff.missing|), diff, |diff.missing|)
  {
    var inv := (q: Pass, k: nat) => Repairing(p, q, diff, k);
    forall q, k | 0 <= k < |diff.missing| && inv(q, k) ensures inv(RepairStep(q, diff.missing[k], attempts(k)), k + 1) {
      RepairingStep(p, q, diff, attempts, k);
    }
    RepairFold(p, diff.missing, attempts, |diff.missing|, inv);
    assert inv(RepairPhase(p, diff.missing, attempts, |diff.missing|), |diff.missing|);
  }

  // ----- one prune stops one instance

  /** `v` differs from `w` in that desired instance `i` is marked stopped and its container `c` is gone. */
  ghost predicate ServesOneLess(w: World, v: World, i: string, c: Container) {
    && IsDesired(w, i) && Serves(w, c, i)
    && v.deployments == w.deployments && v.workers == w.workers && v.byKey == w.byKey
    && v.instances == w.instances[i := w.instances[i].(status := Stopped)]
    && v.containers == w.containers - {c}
  }

  lemma {:induction false} PruneServesOneLess(p: Pass, pair: Pair)
    requires Tidy(p.world) && PairServes(p.world, pair)
    ensures ServesOneLess(p.world, PruneStep(p, pair, true).world, pair.desired.instanceID, ContainerOf(pair.observed))
  {
    var w, i, c := p.world, pair.desired.instanceID, ContainerOf(pair.observed);
    assert StopOn(w.containers, c.worker, c.key) == w.containers - {c} by {
      forall d | d in w.containers && d.worker == c.worker && (d.key == c.key || d.id == c.key) ensures d == c {
        assert d.id != c.key;
        assert Managed(ObservedOf(d));
        var j := Owner(w, d);
        OneCarrier(w, d, i, j);
      }
    }
    var stopped := w.(containers := StopOn(w.containers, c.worker, c.key));
    var inst := w.instances[i].(status := Stopped);
    assert MarkStopped(stopped, c.key, i) == UpdateInstance(stopped, inst);
    assert w.byKey[inst.key := i] == w.byKey;
  }

  /** Pruning keeps the router's table exactly the running instances, even if the stop fails. */
  lemma {:induction false} PruneKeepsRoutes(p: Pass, pair: Pair, ok: bool)
    requires NamesUnique(p.world) && PairServes(p.world, pair) && Books.Routed(p.world)
    ensures Books.Routed(PruneStep(p, pair, ok).world)
  {
    var w, v, i := p.world, PruneStep(p, pair, ok).world, pair.desired.instanceID;
    PruneMarks(p, pair, ok);
    UnregisterRoutes(w, w.deployments[pair.desired.deploymentID].project, i);
    forall project | project != "" ensures Books.RoutedFor(v, project) {
      assert Books.RoutedFor(w, project);
      forall j ensures Books.RunsFor(v, project, j) <==> Books.RunsFor(w, project, j) && j != i {}
      assert project != w.deployments[pair.desired.deploymentID].project ==> !Books.RunsFor(w, project, i);
    }
  }

  lemma {:induction false} PruneMarks(p: Pass, pair: Pair, ok: bool)
    requires NamesUnique(p.world) && PairServes(p.world, pair)
    ensures var w, v, i := p.world, PruneStep(p, pair, ok).world, pair.desired.instanceID;
            var project := w.deployments[pair.desired.deploymentID].project;
            && v.deployments == w.deployments && v.instances == w.instances[i := w.instances[i].(status := Stopped)]
            && v.targets == if project != "" then UnregisterTarget(w, project, i).targets else w.targets
  {
    var w, i, c := p.world, pair.desired.instanceID, ContainerOf(pair.observed);
    var stopped := if ok then w.(containers := StopOn(w.containers, c.worker, c.key)) else w;
    assert MarkStopped(stopped, c.key, i) == UpdateInstance(stopped, w.instances[i].(status := Stopped));
  }

  /** The repair is not attempted, or does not reach a worker. */
  predicate Skipped(p: Pass, m: Desired, a: Attempt) {
    Count(p.running, m.deploymentID) >= Want(p.world, m.deploymentID) || RepairTarget(p.world, m, a.pick).None? || !a.dialed
  }

  lemma {:induction false} RepairMarks(p: Pass, m: Desired, a: Attempt)
    requires NamesUnique(p.world) && IsEntry(p.world, m)
    ensures var w, v, i := p.world, RepairStep(p, m, a).world, m.instanceID;
            && v.deployments == w.deployments && v.targets == w.targets && v.instances.Keys == w.instances.Keys
            && (forall j :: j in w.instances && j != i ==> v.instances[j] == w.instances[j])
            && v.instances[i].deployment == w.instances[i].deployment
            && v.instances[i].status == if Skipped(p, m, a) then w.instances[i].status else if a.ran then Running else RepairFailed
  {
    assert HasKey(p.world, m.instanceKey) && ByKey(p.world, m.instanceKey) == p.world.instances[m.instanceID];
  }

  /**
   Repair does not write the router's table either: agreement survives a repair if and only if
   the project has no routes, nothing was attempted, or the instance was already in the state
   that the attempt leaves it in.
   */
  lemma {:induction false} RepairKeepsRoutesExactly(p: Pass, m: Desired, a: Attempt)
    requires NamesUnique(p.world) && IsEntry(p.world, m) && Books.Routed(p.world)
    ensures Books.Routed(RepairStep(p, m, a).world) <==>
              p.world.deployments[m.deploymentID].project == "" || Skipped(p, m, a)
              || (a.ran <==> p.world.instances[m.instanceID].status == Running)
  {
    var w, v, i := p.world, RepairStep(p, m, a).world, m.instanceID;
    var home := w.deployments[m.deploymentID].project;
    RepairMarks(p, m, a);
    forall project, j | j != i ensures Books.RunsFor(v, project, j) <==> Books.RunsFor(w, project, j) {}
    assert Books.RunsFor(w, home, i) <==> w.instances[i].status == Running;
    assert Books.RunsFor(v, home, i) <==> v.instances[i].status == Running;
    if home != "" && (w.instances[i].status == Running) != (v.instances[i].status == Running) {
      assert Books.RoutedFor(w, home) && TargetsOf(v, home) == TargetsOf(w, home);
      assert !Books.RoutedFor(v, home);
    } else {
      forall project | project != "" ensures Books.RoutedFor(v, project) {
        assert Books.RoutedFor(w, project) && TargetsOf(v, project) == TargetsOf(w, project);
        assert Books.RunsFor(v, project, i) <==> Books.RunsFor(w, project, i);
      }
    }
  }

  lemma {:induction false} OneLessServed(w: World, v: World, i: string, c: Container)
    requires Tidy(w) && ServesOneLess(w, v, i, c)
    ensures forall j :: IsDesired(v, j) <==> IsDesired(w, j) && j != i
    ensures forall x, j :: j != i ==> (Serves(v, x, j) <==> Serves(w, x, j))
    ensures forall j :: j != i ==> (Served(v, j) <==> Served(w, j))
  {
    forall x, j | j != i ensures Serves(v, x, j) <==> Serves(w, x, j) {
      if Serves(w, x, j) && x == c {
        OneCarrier(w, x, i, j);
      }
    }
    forall j | j != i ensures Served(v, j) <==> Served(w, j) {
      if Served(w, j) {
        var x :| Serves(w, x, j);
        assert Serves(v, x, j);
      }
      if Served(v, j) {
        var x :| Serves(v, x, j);
        assert Serves(w, x, j);
      }
    }
  }

  lemma {:induction false} OneLessIsTidy(w: World, v: World, i: string, c: Container)
    requires Tidy(w) && ServesOneLess(w, v, i, c)
    ensures Tidy(v)
  {
    OneLessServed(w, v, i, c);
    assert Served(w, i);
    forall x | x in v.containers && Managed(ObservedOf(x)) ensures Employed(v, x) {
      assert Employed(w, x);
      assert Owner(w, x) != i;
      assert IsDesired(v, Owner(w, x)) && Serves(v, x, Owner(w, x));
    }
    forall x, y, j | IsDesired(v, j) && Serves(v, x, j) && Serves(v, y, j) ensures x == y {
      assert Serves(w, x, j) && Serves(w, y, j) && IsDesired(w, j);
    }
  }

  lemma {:induction false} OneLessInSet(w: World, v: World, i: string, c: Container, d: string)
    requires Tidy(w) && ServesOneLess(w, v, i, c)
    ensures |ServedSet(v, d)| == |ServedSet(w, d)| - if d == w.instances[i].deployment then 1 else 0
  {
    OneLessServed(w, v, i, c);
    assert Served(w, i);
    SetsDiffer(v, w, i, d);
  }

  /** Pair `a` has not been pruned while deployment `d` is being pruned down to pair `i` and those in `done` are. */
  ghost predicate Left(matching: seq<Pair>, done: seq<string>, d: string, i: nat, a: int)
    requires 0 <= a < |matching|
  {
    if matching[a].desired.deploymentID == d then d !in done && a < i else matching[a].desired.deploymentID !in done
  }

  ghost predicate PairsLeft(p: Pass, matching: seq<Pair>, done: seq<string>, d: string, i: nat) {
    && DistinctPairs(matching)
    && forall a :: 0 <= a < |matching| && Left(matching, done, d, i, a) ==> PairServes(p.world, matching[a])
  }

  ghost predicate UnservedIsFull(p: Pass) {
    forall i {:trigger Served(p.world, i)} :: IsDesired(p.world, i) && !Served(p.world, i) ==>
        Full(p, p.world.instances[i].deployment)
  }

  ghost predicate PruneInv(p: Pass) {
    Tidy(p.world) && CountsServed(p) && UnservedIsFull(p)
  }

  lemma {:induction false} CountsAfterPrune(p: Pass, q: Pass, i: string, c: Container)
    requires Tidy(p.world) && CountsServed(p) && ServesOneLess(p.world, q.world, i, c)
    requires var d := p.world.instances[i].deployment; q.running == p.running[d := Count(p.running, d) - 1]
    ensures CountsServed(q)
  {
    forall d ensures Count(q.running, d) == |ServedSet(q.world, d)| {
      OneLessInSet(p.world, q.world, i, c, d);
      assert Count(p.running, d) == |ServedSet(p.world, d)|;
    }
  }

  lemma {:induction false} UnservedAfterPrune(p: Pass, q: Pass, i: string, c: Container)
    requires Tidy(p.world) && UnservedIsFull(p) && ServesOneLess(p.world, q.world, i, c)
    requires var d := p.world.instances[i].deployment;
             Count(p.running, d) > Want(p.world, d) && q.running == p.running[d := Count(p.running, d) - 1]
    ensures UnservedIsFull(q)
  {
    OneLessServed(p.world, q.world, i, c);
    forall j | IsDesired(q.world, j) && !Served(q.world, j) ensures Full(q, q.world.instances[j].deployment) {
      assert IsDesired(p.world, j) && !Served(p.world, j);
      assert Full(p, p.world.instances[j].deployment);
    }
  }

  lemma {:induction false} PairsAfterPrune(p: Pass, q: Pass, matching: seq<Pair>, done: seq<string>, d: string, i: nat)
    requires Tidy(p.world) && i < |matching| && d !in done && PairsLeft(p, matching, done, d, i + 1)
    requires matching[i].desired.deploymentID == d
    requires ServesOneLess(p.world, q.world, matching[i].desired.instanceID, ContainerOf(matching[i].observed))
    ensures PairsLeft(q, matching, done, d, i)
  {
    var id := matching[i].desired.instanceID;
    OneLessServed(p.world, q.world, id, ContainerOf(matching[i].observed));
    forall a | 0 <= a < |matching| && Left(matching, done, d, i, a) ensures PairServes(q.world, matching[a]) {
      assert PairServes(p.world, matching[a]);
      assert matching[a].desired.instanceID != id;
      assert Serves(p.world, ContainerOf(matching[a].observed), matching[a].desired.instanceID);
    }
  }

  lemma {:induction false} PruneStepKeeps(p: Pass, matching: seq<Pair>, done: seq<string>, d: string, i: nat)
    requires PruneInv(p) && d !in done && i < |matching| && PairsLeft(p, matching, done, d, i + 1)
    requires matching[i].desired.deploymentID == d && Count(p.running, d) > Want(p.world, d)
    ensures PruneInv(PruneStep(p, matching[i], true))
    ensures PairsLeft(PruneStep(p, matching[i], true), matching, done, d, i)
    ensures Pruning(p, PruneStep(p, matching[i], true))
  {
    var id, c := matching[i].desired.instanceID, ContainerOf(matching[i].observed);
    assert PairServes(p.world, matching[i]);
    PruneServesOneLess(p, matching[i]);
    var q := PruneStep(p, matching[i], true);
    OneLessIsTidy(p.world, q.world, id, c);
    CountsAfterPrune(p, q, id, c);
    UnservedAfterPrune(p, q, id, c);
    PairsAfterPrune(p, q, matching, done, d, i);
  }

  ghost predicate Pruning(p: Pass, q: Pass) {
    q.world.deployments == p.world.deployments && q.world.workers == p.world.workers
  }

  /** `inv` goes on to hold after pair `k - 1` is dealt with. */
  ghost predicate Onward(matching: seq<Pair>, d: string, inv: (Pass, nat, int) -> bool, q: Pass, k: nat, x: int)
    requires 0 < k <= |matching|
  {
    if matching[k - 1].desired.deploymentID == d then inv(PruneStep(q, matching[k - 1], true), k - 1, x - 1) else inv(q, k - 1, x)
  }

  /** Whatever every step keeps, pruning a deployment keeps; `inv` knows how many pairs and how much excess are left. */
  lemma {:induction false} PruneFold(p: Pass, matching: seq<Pair>, d: string, excess: int, ok: nat -> bool, i: nat,
                                     inv: (Pass, nat, int) -> bool, post: Pass -> bool)
    requires i <= |matching| && inv(p, i, excess) && (forall k :: ok(k))
    requires forall q, k: nat, x: int :: 0 < k <= |matching| && x > 0 && inv(q, k, x) ==>
          Onward(matching, d, inv, q, k, x)
    requires forall q, k: nat, x: int :: inv(q, k, x) ==> post(q)
    ensures post(PruneDeployment(p, matching, d, excess, ok, i))
    decreases i
  {
    if i > 0 && excess > 0 {
      assert Onward(matching, d, inv, p, i, excess);
      if matching[i - 1].desired.deploymentID == d {
        PruneFold(PruneStep(p, matching[i - 1], ok(i - 1)), matching, d, excess - 1, ok, i - 1, inv, post);
      } else {
        PruneFold(p, matching, d, excess, ok, i - 1, inv, post);
      }
    }
  }

  ghost predicate PruningOf(p: Pass, q: Pass, matching: seq<Pair>, done: seq<string>, d: string, i: nat, excess: int) {
    && PruneInv(q) && PairsLeft(q, matching, done, d, i) && Pruning(p, q)
    && Count(q.running, d) - excess >= Want(q.world, d)
  }

  lemma {:induction false} PruningStep(p: Pass, q: Pass, matching: seq<Pair>, done: seq<string>, d: string,
                                       k: nat, x: int)
    requires 0 < k <= |matching| && d !in done && x > 0 && PruningOf(p, q, matching, done, d, k, x)
    ensures if matching[k - 1].desired.deploymentID == d
            then PruningOf(p, PruneStep(q, matching[k - 1], true), matching, done, d, k - 1, x - 1)
            else PruningOf(p, q, matching, done, d, k - 1, x)
  {
    if matching[k - 1].desired.deploymentID == d {
      PruneStepKeeps(q, matching, done, d, k - 1);
    }
  }

  /** The pairs of deployments not yet pruned all serve. */
  ghost predicate PairsWaiting(p: Pass, matching: seq<Pair>, done: seq<string>) {
    && DistinctPairs(matching)
    && forall a :: 0 <= a < |matching| && matching[a].desired.deploymentID !in done ==> PairServes(p.world, matching[a])
  }

  ghost predicate Pruned(p: Pass, q: Pass, matching: seq<Pair>, done: seq<string>) {
    PruneInv(q) && PairsWaiting(q, matching, done) && Pruning(p, q)
  }

  lemma {:induction false} PruningEnds(p: Pass, q: Pass, matching: seq<Pair>, done: seq<string>, d: string,
                                       k: nat, x: int)
    requires PruningOf(p, q, matching, done, d, k, x)
    ensures Pruned(p, q, matching, done + [d])
  {
    forall a | 0 <= a < |matching| && matching[a].desired.deploymentID !in done + [d]
      ensures PairServes(q.world, matching[a])
    {
      assert Left(matching, done, d, k, a);
    }
  }

  ghost function PruneInvariant(p: Pass, matching: seq<Pair>, done: seq<string>, d: string): (Pass, nat, int) -> bool {
    (q: Pass, i: nat, x: int) => PruningOf(p, q, matching, done, d, i, x)
  }

  lemma {:induction false} FromInvariant(p: Pass, q: Pass, matching: seq<Pair>, done: seq<string>, d: string,
                                         k: nat, x: int)
    requires PruneInvariant(p, matching, done, d)(q, k, x)
    ensures PruningOf(p, q, matching, done, d, k, x)
  {
  }

  lemma {:induction false} ToInvariant(p: Pass, q: Pass, matching: seq<Pair>, done: seq<string>, d: string,
                                       k: nat, x: int)
    requires PruningOf(p, q, matching, done, d, k, x)
    ensures PruneInvariant(p, matching, done, d)(q, k, x)
  {
  }

  lemma {:induction false} OnwardHolds(p: Pass, q: Pass, matching: seq<Pair>, done: seq<string>, d: string,
                                       k: nat, x: int)
    requires 0 < k <= |matching| && d !in done && x > 0 && PruneInvariant(p, matching, done, d)(q, k, x)
    ensures Onward(matching, d, PruneInvariant(p, matching, done, d), q, k, x)
  {
    FromInvariant(p, q, matching, done, d, k, x);
    if matching[k - 1].desired.deploymentID == d {
      OnwardPrunes(p, q, matching, done, d, k, x);
    } else {
      ToInvariant(p, q, matching, done, d, k - 1, x);
    }
  }

  lemma {:induction false} OnwardPrunes(p: Pass, q: Pass, matching: seq<Pair>, done: seq<string>, d: string,
                                        k: nat, x: int)
    requires 0 < k <= |matching| && d !in done && x > 0 && PruningOf(p, q, matching, done, d, k, x)
    requires matching[k - 1].desired.deploymentID == d
    ensures PruneInvariant(p, matching, done, d)(PruneStep(q, matching[k - 1], true), k - 1, x - 1)
  {
    PruningStep(p, q, matching, done, d, k, x);
    ToInvariant(p, PruneStep(q, matching[k - 1], true), matching, done, d, k - 1, x - 1);
  }

  ghost function PrunedTest(p: Pass, matching: seq<Pair>, done: seq<string>): Pass -> bool {
    (q: Pass) => Pruned(p, q, matching, done)
  }

  lemma {:induction false} EndHolds(p: Pass, q: Pass, matching: seq<Pair>, done: seq<string>, d: string, k: nat, x: int)
    requires PruneInvariant(p, matching, done, d)(q, k, x)
    ensures PrunedTest(p, matching, done + [d])(q)
  {
    PruningEnds(p, q, matching, done, d, k, x);
  }

  lemma {:induction false} PruneDeploymentKeeps(p: Pass, matching: seq<Pair>, done: seq<string>, d: string,
                                                excess: int, ok: nat -> bool)
    requires d !in done && (forall k :: ok(k)) && PruningOf(p, p, matching, done, d, |matching|, excess)
    ensures Pruned(p, PruneDeployment(p, matching, d, excess, ok, |matching|), matching, done + [d])
  {
    var inv, post := PruneInvariant(p, matching, done, d), PrunedTest(p, matching, done + [d]);
    forall q, k: nat, x: int | 0 < k <= |matching| && x > 0 && inv(q, k, x) ensures Onward(matching, d, inv, q, k, x) {
      OnwardHolds(p, q, matching, done, d, k, x);
    }
    forall q, k: nat, x: int | inv(q, k, x) ensures post(q) {
      EndHolds(p, q, matching, done, d, k, x);
    }
    PruneFold(p, matching, d, excess, ok, |matching|, inv, post);
    assert post(PruneDeployment(p, matching, d, excess, ok, |matching|));
  }

  // ----- the pruning phase

  /** Deployments already pruned are at most at their wanted count; the others have only matched replicas above it. */
  ghost predicate Trimmed(p: Pass, matching: seq<Pair>, done: seq<string>) {
    forall d :: Count(p.running, d) > Want(p.world, d) ==>
        d !in done && Count(p.running, d) == MatchedOf(matching, |matching|, d)
  }

  ghost function PruneNext(q: Pass, matching: seq<Pair>, d: string, ok: nat -> bool): Pass {
    if d in q.world.deployments
    then PruneDeployment(q, matching, d, Count(q.running, d) - Want(q.world, d), ok, |matching|) else q
  }

  lemma {:induction false} TrimmedNext(q: Pass, matching: seq<Pair>, done: seq<string>, d: string, ok: nat -> bool)
    requires Trimmed(q, matching, done) && d in q.world.deployments
    ensures Trimmed(PruneNext(q, matching, d, ok), matching, done + [d])
  {
    var r := PruneNext(q, matching, d, ok);
    forall e ensures Count(r.running, e) > Want(r.world, e) ==>
                       e !in done + [d] && Count(r.running, e) == MatchedOf(matching, |matching|, e)
    {
      PruneDeploymentCounts(q, matching, d, Count(q.running, d) - Want(q.world, d), ok, |matching|, e);
    }
  }

  lemma {:induction false} AbsentIsUncounted(q: Pass, matching: seq<Pair>, done: seq<string>, d: string)
    requires CountsServed(q) && Trimmed(q, matching, done) && d !in q.world.deployments
    ensures Trimmed(q, matching, done + [d])
  {
    assert ServedSet(q.world, d) == {};
    assert Count(q.running, d) == |ServedSet(q.world, d)|;
  }

  lemma {:induction false} PruneNextKeeps(p: Pass, q: Pass, matching: seq<Pair>, d: string, done: seq<string>,
                                          ok: nat -> bool)
    requires Pruned(p, q, matching, done) && Trimmed(q, matching, done) && (forall k :: ok(k))
    ensures Pruned(p, PruneNext(q, matching, d, ok), matching, done + [d])
  {
    var excess := Count(q.running, d) - Want(q.world, d);
    if d in q.world.deployments && excess > 0 {
      assert PairsLeft(q, matching, done, d, |matching|);
      PruneDeploymentKeeps(q, matching, done, d, excess, ok);
    }
  }

  lemma {:induction false} PruneOrderFold(p: Pass, matching: seq<Pair>, order: seq<string>, ok: nat -> bool,
                                          n: nat, inv: (Pass, nat) -> bool)
    requires n <= |order| && inv(p, 0)
    requires forall q, k: nat :: k < |order| && inv(q, k) ==> inv(PruneNext(q, matching, order[k], ok), k + 1)
    ensures inv(PrunePhase(p, matching, order, ok, n), n)
  {
    if n > 0 {
      PruneOrderFold(p, matching, order, ok, n - 1, inv);
      var q := PrunePhase(p, matching, order, ok, n - 1);
      assert PrunePhase(p, matching, order, ok, n) == PruneNext(q, matching, order[n - 1], ok);
    }
  }

  ghost predicate PrunePhaseInv(p: Pass, q: Pass, matching: seq<Pair>, order: seq<string>, n: nat) {
    n <= |order| && Pruned(p, q, matching, order[..n]) && Trimmed(q, matching, order[..n])
  }

  lemma {:induction false} PrunePhaseStep(p: Pass, q: Pass, matching: seq<Pair>, order: seq<string>,
                                          ok: nat -> bool, k: nat)
    requires k < |order| && PrunePhaseInv(p, q, matching, order, k) && (forall k :: ok(k))
    ensures PrunePhaseInv(p, PruneNext(q, matching, order[k], ok), matching, order, k + 1)
  {
    assert order[..k + 1] == order[..k] + [order[k]];
    PruneNextKeeps(p, q, matching, order[k], order[..k], ok);
    if order[k] in q.world.deployments {
      TrimmedNext(q, matching, order[..k], order[k], ok);
    } else {
      AbsentIsUncounted(q, matching, order[..k], order[k]);
    }
  }

  ghost function PhaseInvariant(p: Pass, matching: seq<Pair>, order: seq<string>): (Pass, nat) -> bool {
    (q: Pass, k: nat) => PrunePhaseInv(p, q, matching, order, k)
  }

  lemma {:induction false} PhaseStep(p: Pass, q: Pass, matching: seq<Pair>, order: seq<string>, ok: nat -> bool, k: nat)
    requires k < |order| && PhaseInvariant(p, matching, order)(q, k) && (forall k :: ok(k))
    ensures PhaseInvariant(p, matching, order)(PruneNext(q, matching, order[k], ok), k + 1)
  {
    PrunePhaseStep(p, q, matching, order, ok, k);
  }

  lemma {:induction false} PhaseStarts(p: Pass, matching: seq<Pair>, order: seq<string>)
    requires PruneInv(p) && MatchedStill(p, matching) && ExcessIsMatched(p, matching)
    ensures PhaseInvariant(p, matching, order)(p, 0)
  {
  }

  lemma {:induction false} PrunePhaseKeeps(p: Pass, matching: seq<Pair>, order: seq<string>, ok: nat -> bool)
    requires PruneInv(p) && MatchedStill(p, matching) && ExcessIsMatched(p, matching) && (forall k :: ok(k))
    ensures PrunePhaseInv(p, PrunePhase(p, matching, order, ok, |order|), matching, order, |order|)
  {
    var inv := PhaseInvariant(p, matching, order);
    forall q, k: nat | k < |order| && inv(q, k) ensures inv(PruneNext(q, matching, order[k], ok), k + 1) {
      PhaseStep(p, q, matching, order, ok, k);
    }
    PhaseStarts(p, matching, order);
    PruneOrderFold(p, matching, order, ok, |order|, inv);
  }

  // ----- the theorem

  /**
   The calls of the pass succeed: every stop does, every repair finds a worker that runs the
   container, under an ID that is no instance's name; and every counted deployment is visited.
   */
  ghost predicate AllSucceed(w: World, e: Env) {
    && (forall k :: e.orphanStopped(k)) && (forall k :: e.pruneStopped(k))
    && RepairsSucceed(w, DiffOf(w, e).missing, e.repair)
    && AllUnnamed(w, e.repair, |DiffOf(w, e).missing|)
    && (forall d :: d in AfterRepair(w, e).running ==> d in e.deploymentOrder)
  }

  lemma {:induction false} AfterOrphansReady(w: World, e: Env)
    requires NamesUnique(w) && KeysFilled(w) && ContainersDistinct(w) && ListsAll(w, e)
    requires (forall k :: e.orphanStopped(k))
    ensures var diff := DiffOf(w, e);
            var p := AfterOrphans(w, e).(running := CountMatching(diff.matching, |diff.matching|));
            RepairInv(p, diff, 0) && SameNames(w, p.world) && p.world.workers == w.workers
  {
    FactsHold(w, e);
    var diff := DiffOf(w, e);
    AfterOrphansKept(w, e);
    ReadyToRepair(w, diff, AfterOrphans(w, e).(running := CountMatching(diff.matching, |diff.matching|)));
  }

  lemma {:induction false} AfterOrphansKept(w: World, e: Env)
    requires ContainersDistinct(w) && (forall k :: e.orphanStopped(k)) && ExtraFacts(w, DiffOf(w, e))
    ensures KeptOnly(w, DiffOf(w, e), AfterOrphans(w, e).world)
  {
    var diff := DiffOf(w, e);
    OrphansSwept(w, diff.extra, e.orphanStopped, |diff.extra|);
    SweepKeepsOnly(w, diff, AfterOrphans(w, e).world);
  }

  lemma {:induction false} ReadyToRepair(w: World, diff: DiffResult, p: Pass)
    requires NamesUnique(w) && KeysFilled(w) && ContainersDistinct(w) && Facts(w, diff) && KeptOnly(w, diff, p.world)
    requires p.running == CountMatching(diff.matching, |diff.matching|)
    ensures RepairInv(p, diff, 0)
  {
    SweepIsTidy(w, diff, p.world);
    forall d ensures Count(p.running, d) == |ServedSet(p.world, d)| == MatchedOf(diff.matching, |diff.matching|, d) {
      PairsAreServed(p.world, diff.matching, d);
    }
    forall i | IsDesired(p.world, i) && !Served(p.world, i) ensures ListsFrom(diff.missing, 0, i) {
      assert Lists(diff.missing, i);
    }
  }

  lemma {:induction false} RepairedReady(p: Pass, diff: DiffResult)
    requires RepairInv(p, diff, |diff.missing|)
    ensures PruneInv(p)
  {
  }

  /** Pruning every counted deployment leaves a clean world. */
  lemma {:induction false} PrunedIsClean(p: Pass, q: Pass, matching: seq<Pair>, order: seq<string>)
    requires PrunePhaseInv(p, q, matching, order, |order|)
    requires forall d :: Count(q.running, d) > 0 ==> d in order
    ensures Clean(q.world)
  {
    assert order[..|order|] == order;
    forall d ensures |ServedSet(q.world, d)| <= Want(q.world, d) {
      assert Count(q.running, d) == |ServedSet(q.world, d)|;
    }
    forall i | IsDesired(q.world, i) && !Served(q.world, i)
      ensures |ServedSet(q.world, q.world.instances[i].deployment)| >= Want(q.world, q.world.instances[i].deployment)
    {
      assert Full(q, q.world.instances[i].deployment);
      assert Count(q.running, q.world.instances[i].deployment) == |ServedSet(q.world, q.world.instances[i].deployment)|;
    }
  }

  lemma {:induction false} PruneOnlyLowers(p: Pass, matching: seq<Pair>, order: seq<string>, ok: nat -> bool,
                                           n: nat, d: string)
    requires n <= |order|
    ensures Count(PrunePhase(p, matching, order, ok, n).running, d) <= Count(p.running, d)
  {
    if n > 0 {
      PruneOnlyLowers(p, matching, order, ok, n - 1, d);
      var q, e := PrunePhase(p, matching, order, ok, n - 1), order[n - 1];
      if e in q.world.deployments {
        PruneDeploymentCounts(q, matching, e, Count(q.running, e) - Want(q.world, e), ok, |matching|, d);
      }
    }
  }

  lemma {:induction false} AfterRepairReady(w: World, e: Env)
    requires NamesUnique(w) && KeysFilled(w) && ContainersDistinct(w) && ListsAll(w, e) && AllSucceed(w, e)
    ensures RepairInv(AfterRepair(w, e), DiffOf(w, e), |DiffOf(w, e).missing|)
    ensures AfterRepair(w, e).world.workers == w.workers
  {
    var diff := DiffOf(w, e);
    var p := AfterOrphans(w, e).(running := CountMatching(diff.matching, |diff.matching|));
    AfterOrphansReady(w, e);
    OrphansKeepDeployments(Start(w), diff.extra, e.orphanStopped, |diff.extra|);
    SuccessCarriesOver(w, p.world, diff.missing, e.repair);
    RepairPhaseKeeps(p, diff, e.repair);
    RepairKeepsDeployments(p, diff.missing, e.repair, |diff.missing|);
  }

  lemma {:induction false} SuccessCarriesOver(w: World, v: World, missing: seq<Desired>, attempts: nat -> Attempt)
    requires SameNames(w, v) && v.workers == w.workers
    requires RepairsSucceed(w, missing, attempts) && AllUnnamed(w, attempts, |missing|)
    ensures RepairsSucceed(v, missing, attempts) && AllUnnamed(v, attempts, |missing|)
  {
    forall k: nat | k < |missing|
      ensures attempts(k).dialed && attempts(k).ran && RepairTarget(v, missing[k], attempts(k).pick).Some?
      ensures Unnamed(v, attempts(k).newID)
    {
      AttemptStillGood(w, v, missing, attempts, k);
    }
  }

  lemma {:induction false} AfterPruneClean(w: World, e: Env)
    requires NamesUnique(w) && KeysFilled(w) && ContainersDistinct(w) && ListsAll(w, e) && AllSucceed(w, e)
    ensures Clean(AfterPrune(w, e).world) && AfterPrune(w, e).world.workers == w.workers
  {
    var diff, p := DiffOf(w, e), AfterRepair(w, e);
    AfterRepairReady(w, e);
    RepairedReady(p, diff);
    PrunePhaseKeeps(p, diff.matching, e.deploymentOrder, e.pruneStopped);
    forall d | Count(AfterPrune(w, e).running, d) > 0 ensures d in e.deploymentOrder {
      PruneOnlyLowers(p, diff.matching, e.deploymentOrder, e.pruneStopped, |e.deploymentOrder|, d);
    }
    PrunedIsClean(p, AfterPrune(w, e), diff.matching, e.deploymentOrder);
  }

  /**
   One-pass convergence.  From any world with unique instance names, at most one container
   per worker and key, no draining worker and calls that succeed, one pass leaves a clean
   world, and every later pass over it, whatever the order of its lists and whatever its
   calls would answer, takes no action and changes nothing.
   */
  lemma {:induction false} OnePassConverges(w: World, e: Env)
    requires NamesUnique(w) && KeysFilled(w) && ContainersDistinct(w) && NoneDraining(w)
    requires ListsAll(w, e) && AllSucceed(w, e)
    ensures Clean(ReconcileSpec(w, e).world) && AtRecordedCounts(ReconcileSpec(w, e).world)
    ensures forall e2 :: ListsAll(ReconcileSpec(w, e).world, e2) ==> Quiet(ReconcileSpec(w, e).world, e2)
  {
    AfterPruneClean(w, e);
    NothingToDrain(AfterPrune(w, e), e.drainOrder, e.migrate, e.oldStopped, |e.drainOrder|);
    var v := ReconcileSpec(w, e).world;
    CleanCounts(v);
    forall e2 | ListsAll(v, e2) ensures Quiet(v, e2) {
      CleanIsQuiet(v, e2);
    }
  }

  ghost predicate Quiet(w: World, e: Env) {
    TotalActions(ReconcileSpec(w, e).actions) == 0 && ReconcileSpec(w, e).world == w
  }

  /**
   Clean says exactly that there is nothing to do: under the same conditions, a pass is quiet if
   and only if the world is clean.
   */
  lemma {:induction false} CleanExactlyWhenQuiet(w: World, e: Env)
    requires NamesUnique(w) && KeysFilled(w) && ContainersDistinct(w) && NoneDraining(w)
    requires ListsAll(w, e) && AllSucceed(w, e)
    ensures Clean(w) <==> Quiet(w, e)
  {
    if Clean(w) {
      CleanIsQuiet(w, e);
    }
    OnePassConverges(w, e);
  }
}
