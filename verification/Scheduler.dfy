/**
 Placement decisions: workers (internal/workers/model.go), the feasibility filter, the
 ranking and the selection (internal/scheduler).  Utilization is a rational number.
 */
module Scheduler {
  import Text
  import opened Epsilon
  import opened StableSort

  datatype WorkerState = Unregistered | Ready | Draining | Down
  datatype WorkerHealth = Unknown | Healthy | Suspected | Unhealthy | Unreachable

  datatype Worker = Worker(
    id: string, key: string, capacity: int, labels: map<string, string>,
    state: WorkerState, health: WorkerHealth, schedulable: bool, active: int, partitioned: bool)

  datatype Requirement = Requirement(deploymentID: string, capacity: int, labels: map<string, string>)

  function Lookup(labels: map<string, string>, name: string): string {
    if name in labels then labels[name] else ""
  }

  predicate IsBuildWorker(w: Worker) {
    Lookup(w.labels, "capability") == "build"
  }

  /** Utilization as a fraction: a worker without capacity counts as fully used. */
  function Load(w: Worker): int {
    if w.capacity <= 0 then 1 else w.active
  }

  function Room(w: Worker): (c: int)
    ensures c > 0
  {
    if w.capacity <= 0 then 1 else w.capacity
  }

  // ----- filter

  predicate Feasible(w: Worker, req: Requirement) {
    && w.schedulable
    && w.state == Ready
    && w.health != Unhealthy
    && w.capacity - w.active >= (if req.capacity <= 0 then 1 else req.capacity)
    && (forall k :: k in req.labels ==> Lookup(w.labels, k) == req.labels[k])
    && (Lookup(req.labels, "capability") == "build" <==> IsBuildWorker(w))
  }

  function FeasibleOnly(candidates: seq<Worker>, req: Requirement): (r: seq<Worker>)
    ensures forall w :: w in r <==> w in candidates && Feasible(w, req)
  {
    if candidates == [] then [] else
      var rest := FeasibleOnly(candidates[..|candidates| - 1], req);
      var w := candidates[|candidates| - 1];
      if Feasible(w, req) then rest + [w] else rest
  }

  method Filter(candidates: seq<Worker>, req: Requirement) returns (feasible: seq<Worker>)
    ensures feasible == FeasibleOnly(candidates, req)
  {
    feasible := [];
    var requiredCap := req.capacity;
    if requiredCap <= 0 {
      requiredCap := 1;
    }
    for i := 0 to |candidates|
      invariant feasible == FeasibleOnly(candidates[..i], req)
    {
      var w := candidates[i];
      assert candidates[..i + 1][..i] == candidates[..i];
      if !w.schedulable || w.state == Draining {
        continue;
      }
      if w.state != Ready {
        continue;
      }
      if w.health == Unhealthy {
        continue;
      }
      if w.capacity - w.active < requiredCap {
        continue;
      }
      if |req.labels| > 0 {
        var matches := LabelsMatch(w, req.labels);
        if !matches {
          continue;
        }
      }
      var isBuildReq := Lookup(req.labels, "capability") == "build";
      if isBuildReq && !IsBuildWorker(w) {
        continue;
      }
      if !isBuildReq && IsBuildWorker(w) {
        continue;
      }
      feasible := feasible + [w];
    }
    assert candidates[..|candidates|] == candidates;
  }

  method LabelsMatch(w: Worker, required: map<string, string>) returns (matches: bool)
    ensures matches <==> forall k :: k in required ==> Lookup(w.labels, k) == required[k]
  {
    var left := required.Keys;
    while left != {}
      invariant left <= required.Keys
      invariant forall k :: k in required && k !in left ==> Lookup(w.labels, k) == required[k]
      decreases |left|
    {
      var k :| k in left;
      if Lookup(w.labels, k) != required[k] {
        return false;
      }
      left := left - {k};
    }
    return true;
  }

  // ----- rank

  /** Instances of the deployment on a worker, looked up by ID and, when that gives zero, by key. */
  function CountOn(counts: map<string, int>, w: Worker): int {
    var byID := if w.id in counts then counts[w.id] else 0;
    if byID != 0 then byID else if w.key in counts then counts[w.key] else 0
  }

  /** The source's comparator: spread, then utilization with tolerance, then workload, then key. */
  predicate Before(v: Worker, w: Worker, counts: map<string, int>) {
    if CountOn(counts, v) != CountOn(counts, w) then CountOn(counts, v) < CountOn(counts, w)
    else if FarApart(Load(v), Room(v), Load(w), Room(w)) then
      Ratio(v) < Ratio(w)
    else if v.active != w.active then v.active < w.active
    else Text.Less(v.key, w.key)
  }

  function Ratio(w: Worker): real {
    Load(w) as real / Room(w) as real
  }

  /** The same with exact comparison of the ratios. */
  predicate BeforeExactly(v: Worker, w: Worker, counts: map<string, int>) {
    if CountOn(counts, v) != CountOn(counts, w) then CountOn(counts, v) < CountOn(counts, w)
    else if Ratio(v) != Ratio(w) then Ratio(v) < Ratio(w)
    else if v.active != w.active then v.active < w.active
    else Text.Less(v.key, w.key)
  }

  function Order(counts: map<string, int>): (Worker, Worker) -> bool {
    (v, w) => Before(v, w, counts)
  }

  function Ranked(feasible: seq<Worker>, counts: map<string, int>): (r: seq<Worker>)
    ensures |r| == |feasible|
  {
    Sorted(feasible, Order(counts))
  }

  /** Copies the slice and sorts the copy in place, unless there is nothing to sort. */
  method Rank(feasible: seq<Worker>, counts: map<string, int>) returns (ranked: seq<Worker>)
    ensures ranked == Ranked(feasible, counts)
  {
    if |feasible| <= 1 {
      SortedSingleton(feasible, Order(counts));
      return feasible;
    }
    var a := new Worker[|feasible|](i requires 0 <= i < |feasible| => feasible[i]);
    assert a[..] == feasible;
    SortInPlace(a, Order(counts));
    return a[..];
  }

  // ----- what ranking guarantees for any comparator outcome

  lemma {:induction false} BeforeAsymmetric(v: Worker, w: Worker, counts: map<string, int>)
    requires Before(v, w, counts)
    ensures !Before(w, v, counts)
  {
    if Text.Less(v.key, w.key) && Text.Less(w.key, v.key) {
      Text.LessTransitive(v.key, w.key, v.key);
      Text.LessIrreflexive(v.key);
    }
  }

  lemma {:induction false} RankedSettles(s: seq<Worker>, counts: map<string, int>)
    ensures Settled(Ranked(s, counts), Order(counts))
    ensures multiset(Ranked(s, counts)) == multiset(s)
  {
    forall v, w | Order(counts)(v, w) ensures !Order(counts)(w, v) {
      BeforeAsymmetric(v, w, counts);
    }
    SortedSettles(s, Order(counts));
  }

  /** Counts never decrease along a settled list, even where the tolerance makes the order cyclic. */
  lemma {:induction false} CountsAscend(r: seq<Worker>, counts: map<string, int>, j: nat)
    requires Settled(r, Order(counts)) && j < |r|
    ensures CountOn(counts, r[0]) <= CountOn(counts, r[j])
  {
    if j > 0 {
      CountsAscend(r, counts, j - 1);
      assert !Order(counts)(r[j], r[j - 1]);
    }
  }

  // ----- selection

  datatype Selection = NoWorkers | NoFeasible | Chosen(worker: Worker)

  function SelectWorker(all: seq<Worker>, req: Requirement, counts: map<string, int>): Selection {
    if all == [] then NoWorkers
    else
      var feasible := FeasibleOnly(all, req);
      if feasible == [] then NoFeasible else Chosen(Ranked(feasible, counts)[0])
  }

  /**
   A placement fails exactly when no worker is feasible, and otherwise goes to a feasible worker
   with the fewest instances.
   */
  lemma {:induction false} SelectionSpreads(all: seq<Worker>, req: Requirement, counts: map<string, int>)
    ensures SelectWorker(all, req, counts).Chosen? <==> exists w :: w in all && Feasible(w, req)
    ensures SelectWorker(all, req, counts).NoWorkers? <==> all == []
    ensures SelectWorker(all, req, counts).Chosen? ==>
              var c := SelectWorker(all, req, counts).worker;
              c in all && Feasible(c, req)
              && forall w :: w in all && Feasible(w, req) ==> CountOn(counts, c) <= CountOn(counts, w)
  {
    var feasible := FeasibleOnly(all, req);
    if feasible != [] {
      assert feasible[0] in feasible;
      var r := Ranked(feasible, counts);
      RankedSettles(feasible, counts);
      assert r[0] in multiset(r);
      forall w | w in all && Feasible(w, req) ensures CountOn(counts, r[0]) <= CountOn(counts, w) {
        assert w in multiset(r);
        var j :| 0 <= j < |r| && r[j] == w;
        CountsAscend(r, counts, j);
      }
    }
  }

  // ----- the rules, field by field

  /** What is asked of a worker, in its own fields. */
  ghost predicate MeetsRules(w: Worker, required: int, labels: map<string, string>) {
    && w.schedulable && w.state == Ready && w.health != Unhealthy
    && w.capacity - w.active >= 1 && w.capacity - w.active >= required
    && (forall k :: k in labels ==> (if k in w.labels then w.labels[k] else "") == labels[k])
    && (("capability" in w.labels && w.labels["capability"] == "build")
        <==> ("capability" in labels && labels["capability"] == "build"))
  }

  lemma {:induction false} FilterKeepsTheRules(candidates: seq<Worker>, req: Requirement, w: Worker)
    ensures w in FeasibleOnly(candidates, req) <==> w in candidates && MeetsRules(w, req.capacity, req.labels)
  {
  }

  /** And keeps them in their order, as often as they come. */
  lemma {:induction false} FilterKeepsOrder(a: seq<Worker>, b: seq<Worker>, req: Requirement)
    ensures FeasibleOnly(a + b, req) == FeasibleOnly(a, req) + FeasibleOnly(b, req)
  {
    if b == [] {
      assert a + b == a;
    } else {
      var front, w := b[..|b| - 1], b[|b| - 1];
      FilterKeepsOrder(a, front, req);
      assert (a + b)[..|a + b| - 1] == a + front && (a + b)[|a + b| - 1] == w;
    }
  }

  /** A worker is chosen if and only if some listed one meets the rules, and the chosen one does. */
  lemma {:induction false} SelectionKeepsTheRules(all: seq<Worker>, req: Requirement, counts: map<string, int>)
    ensures SelectWorker(all, req, counts).Chosen? <==> exists w :: w in all && MeetsRules(w, req.capacity, req.labels)
    ensures SelectWorker(all, req, counts).Chosen? ==>
              var c := SelectWorker(all, req, counts).worker; c in all && MeetsRules(c, req.capacity, req.labels)
  {
    SelectionSpreads(all, req, counts);
    if SelectWorker(all, req, counts).Chosen? {
      var c := SelectWorker(all, req, counts).worker;
      assert MeetsRules(c, req.capacity, req.labels);
    }
    if w :| w in all && MeetsRules(w, req.capacity, req.labels) {
      assert Feasible(w, req);
    }
  }

  /** Utilization: the share of the capacity in use, and all of it for a worker without capacity. */
  lemma {:induction false} UtilizationExactly(w: Worker)
    ensures Ratio(w) == if w.capacity <= 0 then 1.0 else w.active as real / w.capacity as real
  {
  }

  /** The count looked up for a worker: under its ID, and under its key when that gives none. */
  lemma {:induction false} CountLookedUp(counts: map<string, int>, w: Worker)
    ensures w.id in counts && counts[w.id] != 0 ==> CountOn(counts, w) == counts[w.id]
    ensures !(w.id in counts && counts[w.id] != 0) && w.key in counts ==> CountOn(counts, w) == counts[w.key]
    ensures !(w.id in counts && counts[w.id] != 0) && w.key !in counts ==> CountOn(counts, w) == 0
  {
  }

  /** The four keys of the comparator, in order. */
  lemma {:induction false} BeforeKeyByKey(v: Worker, w: Worker, counts: map<string, int>)
    ensures CountOn(counts, v) < CountOn(counts, w) ==> Before(v, w, counts)
    ensures CountOn(counts, v) > CountOn(counts, w) ==> !Before(v, w, counts)
    ensures CountOn(counts, v) == CountOn(counts, w) && Ratio(w) - Ratio(v) > 0.000000001 ==> Before(v, w, counts)
    ensures CountOn(counts, v) == CountOn(counts, w) && Ratio(v) - Ratio(w) > 0.000000001 ==> !Before(v, w, counts)
    ensures CountOn(counts, v) == CountOn(counts, w) && -0.000000001 <= Ratio(v) - Ratio(w) <= 0.000000001 ==>
              (Before(v, w, counts) <==> v.active < w.active || (v.active == w.active && Text.Less(v.key, w.key)))
  {
  }

  // ----- exactness: capacities for which the comparator is a strict total order

  /** The tolerance cannot confuse the two workers' ratios (see ExactnessThreshold). */
  predicate Comparable(v: Worker, w: Worker) {
    Room(v) * Room(w) < BILLION * Gcd(Room(v), Room(w))
  }

  lemma {:induction false} ComparatorIsExact(v: Worker, w: Worker, counts: map<string, int>)
    requires Comparable(v, w)
    ensures Before(v, w, counts) <==> BeforeExactly(v, w, counts)
  {
    var a1, c1, a2, c2 := Load(v), Room(v), Load(w), Room(w);
    BelowThresholdIsExact(a1, c1, a2, c2);
    RatiosDiffer(a1, c1, a2, c2);
  }

  lemma {:induction false} RatiosDiffer(a1: int, c1: int, a2: int, c2: int)
    requires c1 > 0 && c2 > 0
    ensures a1 as real / c1 as real != a2 as real / c2 as real <==> a1 * c2 != a2 * c1
  {
    var q1, q2 := a1 as real / c1 as real, a2 as real / c2 as real;
    Difference(a1 as real, c1 as real, a2 as real, c2 as real);
    RealOfProduct(a1, c2);
    RealOfProduct(a2, c1);
    RealOfProduct(c1, c2);
    assert (q1 - q2) * (c1 * c2) as real == (a1 * c2 - a2 * c1) as real;
  }

  /** Exact comparison is a strict total order on workers with distinct keys. */
  lemma {:induction false} ExactIsTransitive(u: Worker, v: Worker, w: Worker, counts: map<string, int>)
    requires BeforeExactly(u, v, counts) && BeforeExactly(v, w, counts)
    ensures BeforeExactly(u, w, counts)
  {
    if Text.Less(u.key, v.key) && Text.Less(v.key, w.key) {
      Text.LessTransitive(u.key, v.key, w.key);
    }
  }

  lemma {:induction false} ExactIsTotal(v: Worker, w: Worker, counts: map<string, int>)
    requires v.key != w.key
    ensures BeforeExactly(v, w, counts) || BeforeExactly(w, v, counts)
    ensures !(BeforeExactly(v, w, counts) && BeforeExactly(w, v, counts))
  {
    Text.LessTotal(v.key, w.key);
    if Text.Less(v.key, w.key) && Text.Less(w.key, v.key) {
      Text.LessTransitive(v.key, w.key, v.key);
      Text.LessIrreflexive(v.key);
    }
  }

  ghost predicate WellSized(s: seq<Worker>) {
    && (forall v, w :: v in s && w in s ==> Comparable(v, w))
    && (forall v, w :: v in s && w in s && v.key == w.key ==> v == w)
  }

  lemma {:induction false} FirstIsLeast(r: seq<Worker>, counts: map<string, int>, j: nat)
    requires Settled(r, Order(counts)) && WellSized(r) && j < |r|
    ensures r[j] == r[0] || BeforeExactly(r[0], r[j], counts)
  {
    if j > 0 {
      FirstIsLeast(r, counts, j - 1);
      assert r[0] in r && r[j - 1] in r && r[j] in r;
      ComparatorIsExact(r[j], r[j - 1], counts);
      if r[j] != r[j - 1] {
        ExactIsTotal(r[j - 1], r[j], counts);
        if r[j - 1] != r[0] {
          ExactIsTransitive(r[0], r[j - 1], r[j], counts);
        }
      }
    }
  }

  /** The chosen worker is the unique least of the feasible ones. */
  lemma {:induction false} SelectionIsLeast(all: seq<Worker>, req: Requirement, counts: map<string, int>, w: Worker)
    requires WellSized(FeasibleOnly(all, req)) && w in all && Feasible(w, req)
    ensures SelectWorker(all, req, counts).Chosen?
    ensures SelectWorker(all, req, counts).worker == w || BeforeExactly(SelectWorker(all, req, counts).worker, w, counts)
  {
    var feasible := FeasibleOnly(all, req);
    var r := Ranked(feasible, counts);
    RankedSettles(feasible, counts);
    forall v | v in r ensures v in feasible {
      assert v in multiset(r);
    }
    assert w in multiset(r);
    var j :| 0 <= j < |r| && r[j] == w;
    FirstIsLeast(r, counts, j);
  }

  /** The registry lists workers in no particular order; the choice does not depend on it. */
  lemma {:induction false} SelectionIgnoresOrder(all: seq<Worker>, other: seq<Worker>, req: Requirement,
                                                 counts: map<string, int>)
    requires forall w :: w in all <==> w in other
    requires WellSized(FeasibleOnly(all, req))
    ensures SelectWorker(all, req, counts) == SelectWorker(other, req, counts)
  {
    assert all == [] <==> other == [] by {
      if all != [] { assert all[0] in other; }
      if other != [] { assert other[0] in all; }
    }
    SelectionSpreads(all, req, counts);
    SelectionSpreads(other, req, counts);
    if SelectWorker(all, req, counts).Chosen? {
      var c, d := SelectWorker(all, req, counts).worker, SelectWorker(other, req, counts).worker;
      SelectionIsLeast(all, req, counts, d);
      SelectionIsLeast(other, req, counts, c);
      if c != d {
        ExactIsTotal(c, d, counts);
      }
    }
  }

  lemma {:induction false} FirstIsUnique(r: seq<Worker>, t: seq<Worker>, counts: map<string, int>)
    requires r != [] && Settled(r, Order(counts)) && Settled(t, Order(counts)) && WellSized(r) && WellSized(t)
    requires multiset(r) == multiset(t)
    ensures t != [] && r[0] == t[0]
  {
    assert r[0] in multiset(r);
    assert r[0] in t && t[0] in multiset(t) && t[0] in r;
    var i :| 0 <= i < |r| && r[i] == t[0];
    var j :| 0 <= j < |t| && t[j] == r[0];
    FirstIsLeast(r, counts, i);
    FirstIsLeast(t, counts, j);
    if r[0] != t[0] {
      ExactIsTotal(r[0], t[0], counts);
    }
  }

  lemma {:induction false} TailSettled(r: seq<Worker>, counts: map<string, int>)
    requires r != [] && Settled(r, Order(counts)) && WellSized(r)
    ensures Settled(r[1..], Order(counts)) && WellSized(r[1..]) && multiset(r[1..]) == multiset(r) - multiset{r[0]}
  {
    assert r == [r[0]] + r[1..];
    forall i | 0 < i < |r[1..]| ensures !Order(counts)(r[1..][i], r[1..][i - 1]) {
      assert !Order(counts)(r[i + 1], r[i]);
    }
    assert forall v :: v in r[1..] ==> v in r;
  }

  lemma {:induction false} SettledIsUnique(r: seq<Worker>, t: seq<Worker>, counts: map<string, int>)
    requires Settled(r, Order(counts)) && Settled(t, Order(counts)) && WellSized(r) && WellSized(t)
    requires multiset(r) == multiset(t)
    ensures r == t
  {
    assert |r| == |multiset(r)| && |t| == |multiset(t)|;
    if r != [] {
      FirstIsUnique(r, t, counts);
      TailSettled(r, counts);
      TailSettled(t, counts);
      SettledIsUnique(r[1..], t[1..], counts);
      assert r == [r[0]] + r[1..] && t == [t[0]] + t[1..];
    }
  }

  /**
   Below the threshold the ranking does not depend on the sorting algorithm: any rearrangement
   of the feasible workers with no neighbours out of order is the ranking.
   */
  lemma {:induction false} AnySortRanks(feasible: seq<Worker>, r: seq<Worker>, counts: map<string, int>)
    requires WellSized(feasible) && multiset(r) == multiset(feasible) && Settled(r, Order(counts))
    ensures r == Ranked(feasible, counts)
  {
    var t := Ranked(feasible, counts);
    RankedSettles(feasible, counts);
    forall w | w in r ensures w in feasible {
      assert w in multiset(r);
    }
    forall w | w in t ensures w in feasible {
      assert w in multiset(t);
    }
    SettledIsUnique(r, t, counts);
  }

  // ----- beyond the threshold the comparator is cyclic

  /** The tie-break below the ratios: workload, then key. */
  predicate TieLess(v: Worker, w: Worker) {
    v.active < w.active || (v.active == w.active && Text.Less(v.key, w.key))
  }

  predicate Near(v: Worker, w: Worker) {
    !FarApart(Load(v), Room(v), Load(w), Room(w))
  }

  /**
   `u` is below `v` by more than the tolerance, `w` is within it of both, and the tie-breaks lead
   from `v` back to `u`.
   */
  predicate Wraps(u: Worker, v: Worker, w: Worker) {
    Ratio(u) < Ratio(v) && !Near(u, v) && Near(v, w) && TieLess(v, w) && Near(w, u) && TieLess(w, u)
  }

  lemma {:induction false} TieTransitive(u: Worker, v: Worker, w: Worker)
    requires TieLess(u, v) && TieLess(v, w)
    ensures TieLess(u, w) && !TieLess(w, u)
  {
    if u.active == v.active == w.active {
      Text.LessTransitive(u.key, v.key, w.key);
      Text.LessAsymmetric(u.key, w.key);
    }
  }

  predicate Close(x: real, y: real) {
    -0.000000001 <= x - y <= 0.000000001
  }

  lemma {:induction false} BeforeCases(v: Worker, w: Worker, counts: map<string, int>)
    requires CountOn(counts, v) == CountOn(counts, w)
    ensures Before(v, w, counts) <==> if Near(v, w) then TieLess(v, w) else Ratio(v) < Ratio(w)
    ensures Near(v, w) <==> Near(w, v)
    ensures Near(v, w) <==> Close(Ratio(v), Ratio(w))
  {
  }

  /**
   The comparator is cyclic on three workers if and only if they have equally many instances
   and, in some rotation, two are within tolerance of the third but not of each other while
   the tie-breaks run against the ratios.
   */
  lemma {:induction false} CycleExactly(u: Worker, v: Worker, w: Worker, counts: map<string, int>)
    ensures Before(u, v, counts) && Before(v, w, counts) && Before(w, u, counts) <==>
              CountOn(counts, u) == CountOn(counts, v) == CountOn(counts, w) && (Wraps(u, v, w) || Wraps(v, w, u) || Wraps(w, u, v))
  {
    if CountOn(counts, u) == CountOn(counts, v) == CountOn(counts, w) {
      BeforeCases(u, v, counts);
      BeforeCases(v, w, counts);
      BeforeCases(w, u, counts);
      if TieLess(u, v) && TieLess(v, w) {
        TieTransitive(u, v, w);
      }
      CycleOfThree(Ratio(u), Ratio(v), Ratio(w), TieLess(u, v), TieLess(v, w), TieLess(w, u));
    }
  }

  /** Ratios and tie-breaks alone: the tie-breaks are not cyclic, so exactly one pair must be apart. */
  lemma {:induction false} CycleOfThree(a: real, b: real, c: real, ab: bool, bc: bool, ca: bool)
    requires !(ab && bc && ca)
    ensures (if Close(a, b) then ab else a < b) && (if Close(b, c) then bc else b < c) && (if Close(c, a) then ca else c < a) <==>
              || (a < b && !Close(a, b) && Close(b, c) && bc && Close(c, a) && ca)
              || (b < c && !Close(b, c) && Close(c, a) && ca && Close(a, b) && ab)
              || (c < a && !Close(c, a) && Close(a, b) && ab && Close(b, c) && bc)
  {
  }

  function Sample(key: string, active: int, capacity: int): Worker {
    Worker(key, key, capacity, map[], Ready, Healthy, true, active, false)
  }

  /** Three healthy workers of about forty thousand slots that each come before the next. */
  lemma {:induction false} ComparatorCanCycle()
    ensures var u, v, w := Sample("u", 20002, 40003), Sample("v", 20001, 40001), Sample("w", 20000, 39999);
            Before(w, v, map[]) && Before(v, u, map[]) && Before(u, w, map[])
  {
    FarApartInWholeNumbers(20002, 40003, 20001, 40001);
    FarApartInWholeNumbers(20001, 40001, 20002, 40003);
    FarApartInWholeNumbers(20000, 39999, 20001, 40001);
    FarApartInWholeNumbers(20002, 40003, 20000, 39999);
  }

  /** With such workers the choice depends on the order in which the registry happens to list them. */
  lemma {:induction false} SelectionCanDependOnOrder()
    ensures var u, v, w := Sample("u", 20002, 40003), Sample("v", 20001, 40001), Sample("w", 20000, 39999);
            Ranked([u, v, w], map[])[0] == v && Ranked([u, w, v], map[])[0] == u
  {
    var u, v, w := Sample("u", 20002, 40003), Sample("v", 20001, 40001), Sample("w", 20000, 39999);
    ComparatorCanCycle();
    BeforeAsymmetric(w, v, map[]);
    BeforeAsymmetric(v, u, map[]);
    BeforeAsymmetric(u, w, map[]);
    var less := Order(map[]);
    SortedThree(u, v, w, less);
    SortedThree(u, w, v, less);
    InsertIntoPair(v, u, w, less);
    InsertIntoPair(u, w, v, less);
  }
}
