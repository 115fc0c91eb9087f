/**
 What the diff means for a world whose instance names are unique: matching pairs are exactly
 the desired instances that some running container serves, one pair each.
 */
module DiffFacts {
  import opened Scheduler
  import opened Diff
  import opened Cluster
  import opened Reconcile

  /** Instance IDs and keys are non-empty and all different from one another. */
  ghost predicate NamesUnique(w: World) {
    IndexesAgree(w)
    && forall i :: i in w.instances ==> i != "" && w.instances[i].key != "" && w.instances[i].key !in w.instances
  }

  ghost predicate KeysFilled(w: World) {
    forall c :: c in w.containers && c.key == "" ==> Label(c.labels, INSTANCE_LABEL) == ""
  }

  predicate Answers(c: Container, inst: Instance) {
    c.key != "" && (c.key == inst.key || c.key == inst.id)
  }

  ghost predicate Serves(w: World, c: Container, i: string) {
    c in w.containers && i in w.instances && IsRunningState(c.state) && Answers(c, w.instances[i])
  }

  ghost predicate Served(w: World, i: string) {
    exists c :: Serves(w, c, i)
  }

  function ContainerOf(o: Observed): Container {
    Container(o.workerID, o.containerID, o.instanceKey, o.image, o.state, o.labels)
  }

  /** The environment lists every instance once and every container once, in any order. */
  ghost predicate ListsAll(w: World, e: Env) {
    && NoDuplicates(e.instanceOrder)
    && (forall i :: i in w.instances ==> i in e.instanceOrder)
    && (forall c :: c in e.listed <==> c in w.containers)
    && (forall a, b :: 0 <= a < b < |e.listed| ==> e.listed[a] != e.listed[b])
  }

  // ----- the desired list

  ghost predicate IsEntry(w: World, m: Desired) {
    IsDesired(w, m.instanceID) && m == DesiredOf(w, m.instanceID)
  }

  ghost predicate DistinctEntries(list: seq<Desired>) {
    forall j, k :: 0 <= j < k < |list| ==> list[j].instanceID != list[k].instanceID
  }

  ghost predicate AllEntries(w: World, list: seq<Desired>) {
    forall j :: 0 <= j < |list| ==> IsEntry(w, list[j])
  }

  ghost predicate Lists(list: seq<Desired>, i: string) {
    exists j :: 0 <= j < |list| && list[j].instanceID == i
  }

  lemma {:induction false} EntriesAreDesired(w: World, order: seq<string>)
    requires NamesUnique(w) && NoDuplicates(order)
    ensures AllEntries(w, DesiredList(w, order)) && DistinctEntries(DesiredList(w, order))
    ensures forall i :: Lists(DesiredList(w, order), i) <==> i in order && IsDesired(w, i)
  {
    if order != [] {
      var front, last := order[..|order| - 1], order[|order| - 1];
      EntriesAreDesired(w, front);
      var rest, list := DesiredList(w, front), DesiredList(w, order);
      assert last !in front;
      if IsDesired(w, last) {
        assert IsEntry(w, list[|list| - 1]);
        forall j | 0 <= j < |rest| ensures rest[j].instanceID != last {
          assert Lists(rest, rest[j].instanceID);
        }
      }
      forall i ensures Lists(list, i) <==> i in order && IsDesired(w, i) {
        assert i in order <==> i in front || i == last;
        if Lists(rest, i) {
          var j :| 0 <= j < |rest| && rest[j].instanceID == i;
          assert list[j] == rest[j];
        } else if i == last && IsDesired(w, i) {
          assert list[|list| - 1].instanceID == i;
        }
      }
    }
  }

  /** A name is carried by at most one instance. */
  lemma {:induction false} OneCarrier(w: World, c: Container, i: string, j: string)
    requires NamesUnique(w) && i in w.instances && j in w.instances
    requires Answers(c, w.instances[i]) && Answers(c, w.instances[j])
    ensures i == j
  {
  }

  /** A container is a candidate for exactly the desired entry whose instance it serves. */
  lemma {:induction false} CandidateServes(w: World, desired: seq<Desired>, c: Container, j: int)
    requires NamesUnique(w) && KeysFilled(w) && c in w.containers && 0 <= j < |desired|
    requires AllEntries(w, desired) && DistinctEntries(desired)
    ensures Candidate(desired, ObservedOf(c)) == j <==> Serves(w, c, desired[j].instanceID)
  {
    var o := ObservedOf(c);
    assert NameOf(o) == c.key;
    var r := Resolve(desired, c.key, |desired|);
    assert IsEntry(w, desired[j]);
    if Serves(w, c, desired[j].instanceID) {
      assert Carries(desired[j], c.key);
      assert r >= j;
      assert IsEntry(w, desired[r]);
      OneCarrier(w, c, desired[j].instanceID, desired[r].instanceID);
    }
  }

  // ----- facts about a diff

  ghost predicate PairServes(w: World, p: Pair) {
    && IsEntry(w, p.desired)
    && p.observed == ObservedOf(ContainerOf(p.observed))
    && Serves(w, ContainerOf(p.observed), p.desired.instanceID)
  }

  ghost predicate Pairs(matching: seq<Pair>, i: string) {
    exists a :: 0 <= a < |matching| && matching[a].desired.instanceID == i
  }

  /** The container is the one of some pair. */
  ghost predicate InPair(matching: seq<Pair>, o: Observed) {
    exists a :: 0 <= a < |matching| && matching[a].observed == o
  }

  ghost predicate DistinctPairs(matching: seq<Pair>) {
    forall a, b :: 0 <= a < b < |matching| ==> matching[a].desired.instanceID != matching[b].desired.instanceID
  }

  ghost predicate MatchingFacts(w: World, matching: seq<Pair>) {
    && (forall a :: 0 <= a < |matching| ==> PairServes(w, matching[a]))
    && DistinctPairs(matching)
  }

  ghost predicate MissingFacts(w: World, missing: seq<Desired>) {
    && AllEntries(w, missing) && DistinctEntries(missing)
    && (forall k :: 0 <= k < |missing| ==> !Served(w, missing[k].instanceID))
  }

  ghost predicate ExtraFacts(w: World, diff: DiffResult) {
    && (forall k :: 0 <= k < |diff.extra| ==>
          diff.extra[k] == ObservedOf(ContainerOf(diff.extra[k])) && ContainerOf(diff.extra[k]) in w.containers)
    && (forall c :: c in w.containers ==> (ObservedOf(c) in diff.extra <==> !InPair(diff.matching, ObservedOf(c))))
  }

  ghost predicate Facts(w: World, diff: DiffResult) {
    && MatchingFacts(w, diff.matching)
    && MissingFacts(w, diff.missing)
    && ExtraFacts(w, diff)
    && (forall i {:trigger Served(w, i)} :: IsDesired(w, i) && Served(w, i) ==> Pairs(diff.matching, i))
    && (forall i {:trigger Served(w, i)} :: IsDesired(w, i) && !Served(w, i) ==> Lists(diff.missing, i))
  }

  /** Everything the lemmas below need to know about the two lists. */
  ghost predicate Setting(w: World, desired: seq<Desired>, listed: seq<Container>) {
    && NamesUnique(w) && KeysFilled(w)
    && AllEntries(w, desired) && DistinctEntries(desired)
    && (forall c :: c in listed <==> c in w.containers)
    && (forall a, b :: 0 <= a < b < |listed| ==> listed[a] != listed[b])
  }

  lemma {:induction false} MatchServes(w: World, desired: seq<Desired>, listed: seq<Container>, i: nat)
    requires Setting(w, desired, listed) && i < |listed| && Matches(desired, ObservedList(listed), i)
    ensures var o := ObservedList(listed)[i];
            PairServes(w, Pair(desired[Candidate(desired, o)], o))
  {
    assert listed[i] in listed;
    CandidateServes(w, desired, listed[i], Candidate(desired, ObservedOf(listed[i])));
  }

  /** The pair was made from container `i`. */
  ghost predicate FromIndex(desired: seq<Desired>, listed: seq<Container>, p: Pair, i: int)
  {
    0 <= i < |listed| && Matches(desired, ObservedList(listed), i)
    && p == Pair(desired[Candidate(desired, ObservedOf(listed[i]))], ObservedOf(listed[i]))
  }

  ghost predicate Origin(desired: seq<Desired>, listed: seq<Container>, n: nat, p: Pair) {
    exists i :: 0 <= i < n && FromIndex(desired, listed, p, i)
  }

  ghost predicate Yields(desired: seq<Desired>, listed: seq<Container>, m: seq<Pair>, i: int) {
    exists a :: 0 <= a < |m| && FromIndex(desired, listed, m[a], i)
  }

  ghost predicate AllFrom(desired: seq<Desired>, listed: seq<Container>, n: nat, m: seq<Pair>) {
    forall a :: 0 <= a < |m| ==> Origin(desired, listed, n, m[a])
  }

  lemma {:induction false} MatchingOrigins(desired: seq<Desired>, listed: seq<Container>, n: nat)
    requires n <= |listed|
    ensures AllFrom(desired, listed, n, MatchingSpec(desired, ObservedList(listed), n))
  {
    if n > 0 {
      MatchingOrigins(desired, listed, n - 1);
      var observed := ObservedList(listed);
      var before, m := MatchingSpec(desired, observed, n - 1), MatchingSpec(desired, observed, n);
      forall a | 0 <= a < |m| ensures Origin(desired, listed, n, m[a]) {
        if a < |before| {
          assert m[a] == before[a] && Origin(desired, listed, n - 1, before[a]);
        } else {
          assert FromIndex(desired, listed, m[a], n - 1);
        }
      }
    }
  }

  lemma {:induction false} MatchingYields(desired: seq<Desired>, listed: seq<Container>, n: nat, i: nat)
    requires i < n <= |listed| && Matches(desired, ObservedList(listed), i)
    ensures Yields(desired, listed, MatchingSpec(desired, ObservedList(listed), n), i)
  {
    var observed := ObservedList(listed);
    var before, m := MatchingSpec(desired, observed, n - 1), MatchingSpec(desired, observed, n);
    if i < n - 1 {
      MatchingYields(desired, listed, n - 1, i);
      var a :| 0 <= a < |before| && FromIndex(desired, listed, before[a], i);
      assert FromIndex(desired, listed, m[a], i);
    } else {
      assert FromIndex(desired, listed, m[|m| - 1], i);
    }
  }

  /** No two matching pairs are about the same desired instance. */
  lemma {:induction false} PairsAreDistinct(desired: seq<Desired>, listed: seq<Container>, n: nat)
    requires n <= |listed| && DistinctEntries(desired)
    ensures DistinctPairs(MatchingSpec(desired, ObservedList(listed), n))
  {
    if n > 0 {
      PairsAreDistinct(desired, listed, n - 1);
      MatchingOrigins(desired, listed, n - 1);
      var observed := ObservedList(listed);
      var before, m := MatchingSpec(desired, observed, n - 1), MatchingSpec(desired, observed, n);
      if Matches(desired, observed, n - 1) {
        forall a | 0 <= a < |before| ensures before[a].desired.instanceID != m[|m| - 1].desired.instanceID {
          assert Origin(desired, listed, n - 1, before[a]);
          var i :| 0 <= i < n - 1 && FromIndex(desired, listed, before[a], i);
          assert Candidate(desired, observed[i]) != Candidate(desired, observed[n - 1]);
        }
      }
    }
  }

  lemma {:induction false} MatchingMeaning(w: World, desired: seq<Desired>, listed: seq<Container>)
    requires Setting(w, desired, listed)
    ensures MatchingFacts(w, MatchingSpec(desired, ObservedList(listed), |listed|))
  {
    var m := MatchingSpec(desired, ObservedList(listed), |listed|);
    PairsAreDistinct(desired, listed, |listed|);
    MatchingOrigins(desired, listed, |listed|);
    forall a | 0 <= a < |m| ensures PairServes(w, m[a]) {
      assert Origin(desired, listed, |listed|, m[a]);
      var i :| 0 <= i < |listed| && FromIndex(desired, listed, m[a], i);
      MatchServes(w, desired, listed, i);
    }
  }

  ghost predicate ExtraOrigin(desired: seq<Desired>, listed: seq<Container>, n: nat, o: Observed) {
    exists i :: 0 <= i < n <= |listed| && !Matches(desired, ObservedList(listed), i) && o == ObservedOf(listed[i])
  }

  lemma {:induction false} ExtraSoFar(desired: seq<Desired>, listed: seq<Container>, n: nat)
    requires n <= |listed|
    ensures var x := ExtraSpec(desired, ObservedList(listed), n);
            && (forall k :: 0 <= k < |x| ==> ExtraOrigin(desired, listed, n, x[k]))
            && (forall i :: 0 <= i < n && !Matches(desired, ObservedList(listed), i) ==> ObservedOf(listed[i]) in x)
  {
    if n > 0 {
      ExtraSoFar(desired, listed, n - 1);
      var observed := ObservedList(listed);
      var before, x := ExtraSpec(desired, observed, n - 1), ExtraSpec(desired, observed, n);
      forall k | 0 <= k < |x| ensures ExtraOrigin(desired, listed, n, x[k]) {
        if k < |before| {
          assert x[k] == before[k] && ExtraOrigin(desired, listed, n - 1, before[k]);
        }
      }
    }
  }

  ghost predicate MissingOrigin(desired: seq<Desired>, observed: seq<Observed>, n: nat, m: Desired) {
    exists j :: 0 <= j < n <= |desired| && !Taken(desired, observed, |observed|, j) && m == desired[j]
  }

  lemma {:induction false} MissingSoFar(desired: seq<Desired>, observed: seq<Observed>, n: nat)
    requires n <= |desired| && DistinctEntries(desired)
    ensures var x := MissingSpec(desired, observed, n);
            && (forall k :: 0 <= k < |x| ==> MissingOrigin(desired, observed, n, x[k]))
            && (forall j :: 0 <= j < n && !Taken(desired, observed, |observed|, j) ==> Lists(x, desired[j].instanceID))
            && DistinctEntries(x)
  {
    if n > 0 {
      MissingSoFar(desired, observed, n - 1);
      var before, x := MissingSpec(desired, observed, n - 1), MissingSpec(desired, observed, n);
      forall k | 0 <= k < |x| ensures MissingOrigin(desired, observed, n, x[k]) {
        if k < |before| {
          assert x[k] == before[k] && MissingOrigin(desired, observed, n - 1, before[k]);
        }
      }
      forall k | 0 <= k < |before| ensures before[k].instanceID != desired[n - 1].instanceID {
        assert MissingOrigin(desired, observed, n - 1, before[k]);
      }
      forall j | 0 <= j < n && !Taken(desired, observed, |observed|, j) ensures Lists(x, desired[j].instanceID) {
        if j < n - 1 {
          var k :| 0 <= k < |before| && before[k].instanceID == desired[j].instanceID;
          assert x[k] == before[k];
        } else {
          assert x[|x| - 1] == desired[j];
        }
      }
    }
  }

  /** An entry is taken exactly when its instance is served. */
  lemma {:induction false} TakenMeansServed(w: World, desired: seq<Desired>, listed: seq<Container>, j: nat)
    requires Setting(w, desired, listed) && j < |desired|
    ensures Taken(desired, ObservedList(listed), |listed|, j) <==> Served(w, desired[j].instanceID)
  {
    var observed := ObservedList(listed);
    if Taken(desired, observed, |listed|, j) {
      var i :| 0 <= i < |listed| && Candidate(desired, observed[i]) == j;
      assert listed[i] in listed;
      CandidateServes(w, desired, listed[i], j);
    }
    if Served(w, desired[j].instanceID) {
      var c :| Serves(w, c, desired[j].instanceID);
      CandidateServes(w, desired, c, j);
      var i :| 0 <= i < |listed| && listed[i] == c;
      assert Candidate(desired, observed[i]) == j;
    }
  }

  /** Among the candidates for an entry the first one matches. */
  lemma {:induction false} FirstCandidateMatches(desired: seq<Desired>, observed: seq<Observed>,
                                                 i: nat) returns (f: nat)
    requires i < |observed| && Candidate(desired, observed[i]) >= 0
    ensures f <= i && Matches(desired, observed, f)
    ensures Candidate(desired, observed[f]) == Candidate(desired, observed[i])
    decreases i
  {
    if k :| 0 <= k < i && Candidate(desired, observed[k]) == Candidate(desired, observed[i]) {
      f := FirstCandidateMatches(desired, observed, k);
    } else {
      f := i;
    }
  }

  lemma {:induction false} SameObserved(listed: seq<Container>, i: nat, j: nat)
    requires i < |listed| && j < |listed| && ObservedOf(listed[i]) == ObservedOf(listed[j])
    requires forall a, b :: 0 <= a < b < |listed| ==> listed[a] != listed[b]
    ensures i == j
  {
    assert ContainerOf(ObservedOf(listed[i])) == listed[i];
    assert ContainerOf(ObservedOf(listed[j])) == listed[j];
  }

  lemma {:induction false} ExtraOrMatch(w: World, desired: seq<Desired>, listed: seq<Container>, i: nat)
    requires Setting(w, desired, listed) && i < |listed|
    ensures var diff := DiffSpec(desired, ObservedList(listed));
            ObservedOf(listed[i]) in diff.extra <==> !InPair(diff.matching, ObservedOf(listed[i]))
  {
    var observed, o := ObservedList(listed), ObservedOf(listed[i]);
    var diff := DiffSpec(desired, observed);
    ExtraSoFar(desired, listed, |listed|);
    MatchingOrigins(desired, listed, |listed|);
    if o in diff.extra {
      var k :| 0 <= k < |diff.extra| && diff.extra[k] == o;
      assert ExtraOrigin(desired, listed, |listed|, diff.extra[k]);
      var j :| 0 <= j < |listed| && !Matches(desired, observed, j) && o == ObservedOf(listed[j]);
      SameObserved(listed, i, j);
    }
    if InPair(diff.matching, o) {
      var a :| 0 <= a < |diff.matching| && diff.matching[a].observed == o;
      assert Origin(desired, listed, |listed|, diff.matching[a]);
      var j :| 0 <= j < |listed| && FromIndex(desired, listed, diff.matching[a], j);
      SameObserved(listed, i, j);
    }
    if Matches(desired, observed, i) {
      MatchingYields(desired, listed, |listed|, i);
    }
  }

  lemma {:induction false} ExtrasAreTheRest(w: World, desired: seq<Desired>, listed: seq<Container>)
    requires Setting(w, desired, listed)
    ensures ExtraFacts(w, DiffSpec(desired, ObservedList(listed)))
  {
    var diff := DiffSpec(desired, ObservedList(listed));
    ExtraSoFar(desired, listed, |listed|);
    forall k | 0 <= k < |diff.extra|
      ensures diff.extra[k] == ObservedOf(ContainerOf(diff.extra[k])) && ContainerOf(diff.extra[k]) in w.containers
    {
      assert ExtraOrigin(desired, listed, |listed|, diff.extra[k]);
      var i :| 0 <= i < |listed| && diff.extra[k] == ObservedOf(listed[i]);
      assert ContainerOf(ObservedOf(listed[i])) == listed[i] && listed[i] in listed;
    }
    forall c | c in w.containers ensures ObservedOf(c) in diff.extra <==> !InPair(diff.matching, ObservedOf(c)) {
      assert c in listed;
      var i :| 0 <= i < |listed| && listed[i] == c;
      ExtraOrMatch(w, desired, listed, i);
    }
  }

  lemma {:induction false} ServedIsPaired(w: World, desired: seq<Desired>, listed: seq<Container>, i: string)
    requires Setting(w, desired, listed) && Served(w, i) && Lists(desired, i)
    ensures Pairs(MatchingSpec(desired, ObservedList(listed), |listed|), i)
  {
    var observed := ObservedList(listed);
    var j :| 0 <= j < |desired| && desired[j].instanceID == i;
    TakenMeansServed(w, desired, listed, j);
    var k :| 0 <= k < |listed| && Candidate(desired, observed[k]) == j;
    var f := FirstCandidateMatches(desired, observed, k);
    MatchingYields(desired, listed, |listed|, f);
    var m := MatchingSpec(desired, observed, |listed|);
    var a :| 0 <= a < |m| && FromIndex(desired, listed, m[a], f);
    assert m[a].desired.instanceID == i;
  }

  /** The meaning of the diff of a world with unique names, whatever the order of the lists. */
  lemma {:induction false} FactsHold(w: World, e: Env)
    requires NamesUnique(w) && KeysFilled(w) && ListsAll(w, e)
    ensures Facts(w, DiffOf(w, e))
  {
    var desired, listed := DesiredList(w, e.instanceOrder), e.listed;
    var observed := ObservedList(listed);
    var diff := DiffOf(w, e);
    EntriesAreDesired(w, e.instanceOrder);
    assert Setting(w, desired, listed);
    MatchingMeaning(w, desired, listed);
    ExtrasAreTheRest(w, desired, listed);
    MissingSoFar(desired, observed, |desired|);
    forall k | 0 <= k < |diff.missing| ensures IsEntry(w, diff.missing[k]) && !Served(w, diff.missing[k].instanceID) {
      assert MissingOrigin(desired, observed, |desired|, diff.missing[k]);
      var j :| 0 <= j < |desired| && !Taken(desired, observed, |observed|, j) && diff.missing[k] == desired[j];
      TakenMeansServed(w, desired, listed, j);
    }
    forall i | IsDesired(w, i) && Served(w, i) ensures Pairs(diff.matching, i) {
      assert Lists(desired, i);
      ServedIsPaired(w, desired, listed, i);
    }
    forall i | IsDesired(w, i) && !Served(w, i) ensures Lists(diff.missing, i) {
      assert Lists(desired, i);
      var j :| 0 <= j < |desired| && desired[j].instanceID == i;
      TakenMeansServed(w, desired, listed, j);
    }
  }
}
