/**
 Desired against observed state, internal/reconcile/diff.go.  ComputeDiff works in one pass
 through a hash index; its specification compares every container with every desired entry.
 */
module Diff {

  datatype Desired = Desired(
    instanceID: string, instanceKey: string, deploymentID: string, workerID: string,
    image: string, labels: map<string, string>)

  datatype Observed = Observed(
    workerID: string, containerID: string, instanceKey: string, deploymentID: string,
    image: string, state: string, labels: map<string, string>)

  datatype Pair = Pair(desired: Desired, observed: Observed)

  datatype DiffResult = DiffResult(matching: seq<Pair>, missing: seq<Desired>, extra: seq<Observed>)

  const INSTANCE_LABEL := "nebula.instance_id"
  const DEPLOYMENT_LABEL := "nebula.deployment_id"

  function Label(labels: map<string, string>, name: string): string {
    if name in labels then labels[name] else ""
  }

  function Lower(c: char): char {
    if 'A' <= c <= 'Z' then c - 'A' + 'a' else c
  }

  predicate EqualFold(s: string, lower: string) {
    |s| == |lower| && forall i :: 0 <= i < |s| ==> Lower(s[i]) == lower[i]
  }

  /** "running" in any case, or anything that starts with "up" in any case. */
  predicate IsRunningState(state: string) {
    EqualFold(state, "running") || (|state| >= 2 && EqualFold(state[..2], "up"))
  }

  /** The name a container goes by: its instance key, or else its instance label. */
  function NameOf(o: Observed): string {
    if o.instanceKey != "" then o.instanceKey else Label(o.labels, INSTANCE_LABEL)
  }

  predicate Carries(d: Desired, name: string) {
    d.instanceKey == name || d.instanceID == name
  }

  // ----- specification: quadratic, no index

  /** The last of the first `n` desired entries that carries `name` as key or ID, or -1. */
  function Resolve(desired: seq<Desired>, name: string, n: nat): (j: int)
    requires n <= |desired|
    ensures -1 <= j < n
    ensures j >= 0 ==> name != "" && Carries(desired[j], name)
    ensures forall i :: j < i < n ==> name == "" || !Carries(desired[i], name)
  {
    if n == 0 || name == "" then -1
    else if Carries(desired[n - 1], name) then n - 1
    else Resolve(desired, name, n - 1)
  }

  /** The desired entry a container is a candidate for, or -1. */
  function Candidate(desired: seq<Desired>, o: Observed): (j: int)
    ensures -1 <= j < |desired|
  {
    if IsRunningState(o.state) then Resolve(desired, NameOf(o), |desired|) else -1
  }

  /** Container `i` is the first candidate for its desired entry. */
  ghost predicate Matches(desired: seq<Desired>, observed: seq<Observed>, i: int)
    requires 0 <= i < |observed|
  {
    Candidate(desired, observed[i]) >= 0
    && forall k :: 0 <= k < i ==> Candidate(desired, observed[k]) != Candidate(desired, observed[i])
  }

  /** One of the first `n` containers is a candidate for desired entry `j`. */
  ghost predicate Taken(desired: seq<Desired>, observed: seq<Observed>, n: nat, j: int)
    requires n <= |observed|
  {
    exists i :: 0 <= i < n && Candidate(desired, observed[i]) == j
  }

  ghost function MatchingSpec(desired: seq<Desired>, observed: seq<Observed>, n: nat): (r: seq<Pair>)
    requires n <= |observed|
  {
    if n == 0 then [] else
      MatchingSpec(desired, observed, n - 1) + (
        if Matches(desired, observed, n - 1)
        then [Pair(desired[Candidate(desired, observed[n - 1])], observed[n - 1])] else [])
  }

  ghost function ExtraSpec(desired: seq<Desired>, observed: seq<Observed>, n: nat): (r: seq<Observed>)
    requires n <= |observed|
  {
    if n == 0 then [] else
      ExtraSpec(desired, observed, n - 1) + (if Matches(desired, observed, n - 1) then [] else [observed[n - 1]])
  }

  ghost function MissingSpec(desired: seq<Desired>, observed: seq<Observed>, n: nat): (r: seq<Desired>)
    requires n <= |desired|
  {
    if n == 0 then [] else
      MissingSpec(desired, observed, n - 1) + (if Taken(desired, observed, |observed|, n - 1) then [] else [desired[n - 1]])
  }

  ghost function DiffSpec(desired: seq<Desired>, observed: seq<Observed>): DiffResult {
    DiffResult(MatchingSpec(desired, observed, |observed|),
               MissingSpec(desired, observed, |desired|),
               ExtraSpec(desired, observed, |observed|))
  }

  // ----- the algorithm of the source

  /** The index: each name to the last desired entry that carries it. */
  ghost predicate IndexFor(index: map<string, int>, desired: seq<Desired>, n: nat)
    requires n <= |desired|
  {
    forall name :: (name in index <==> Resolve(desired, name, n) >= 0)
                   && (name in index ==> index[name] == Resolve(desired, name, n))
  }

  method BuildIndex(desired: seq<Desired>) returns (index: map<string, int>)
    ensures IndexFor(index, desired, |desired|)
  {
    index := map[];
    for i := 0 to |desired|
      invariant IndexFor(index, desired, i)
    {
      ghost var before := index;
      if desired[i].instanceKey != "" {
        index := index[desired[i].instanceKey := i];
      }
      if desired[i].instanceID != "" {
        index := index[desired[i].instanceID := i];
      }
      forall name
        ensures name in index <==> Resolve(desired, name, i + 1) >= 0
        ensures name in index ==> index[name] == Resolve(desired, name, i + 1)
      {
        assert name in before <==> Resolve(desired, name, i) >= 0;
      }
    }
  }

  /** The pass over the containers: splits them, and flags the desired entries that found one. */
  method MatchContainers(desired: seq<Desired>, observed: seq<Observed>, index: map<string, int>, matched: array<bool>)
    returns (matching: seq<Pair>, extra: seq<Observed>)
    requires IndexFor(index, desired, |desired|)
    requires matched.Length == |desired| && forall j :: 0 <= j < |desired| ==> !matched[j]
    modifies matched
    ensures matching == MatchingSpec(desired, observed, |observed|)
    ensures extra == ExtraSpec(desired, observed, |observed|)
    ensures forall j :: 0 <= j < |desired| ==> (matched[j] <==> Taken(desired, observed, |observed|, j))
  {
    matching, extra := [], [];
    for i := 0 to |observed|
      invariant forall j :: 0 <= j < |desired| ==> (matched[j] <==> Taken(desired, observed, i, j))
      invariant matching == MatchingSpec(desired, observed, i)
      invariant extra == ExtraSpec(desired, observed, i)
    {
      var name := observed[i].instanceKey;
      if name == "" {
        name := Label(observed[i].labels, INSTANCE_LABEL);
      }
      ghost var c := Candidate(desired, observed[i]);
      assert name in index && IsRunningState(observed[i].state) <==> c >= 0;
      assert name in index ==> index[name] == Resolve(desired, name, |desired|);
      MatchesWhenFree(desired, observed, i);
      if name != "" && name in index && IsRunningState(observed[i].state) && !matched[index[name]] {
        matching := matching + [Pair(desired[index[name]], observed[i])];
        matched[index[name]] := true;
      } else {
        extra := extra + [observed[i]];
      }
      forall j | 0 <= j < |desired| ensures matched[j] <==> Taken(desired, observed, i + 1, j) {
        TakenStep(desired, observed, i, j);
      }
    }
  }

  /**
   One pass with a hash index and a flag per desired entry computes exactly the quadratic
   specification, whatever keys and IDs collide.
   */
  method ComputeDiff(desired: seq<Desired>, observed: seq<Observed>) returns (result: DiffResult)
    ensures result == DiffSpec(desired, observed)
  {
    var index := BuildIndex(desired);
    var matched := new bool[|desired|](_ => false);
    var matching, extra := MatchContainers(desired, observed, index, matched);
    var missing := [];
    for i := 0 to |desired|
      invariant forall j :: 0 <= j < |desired| ==> (matched[j] <==> Taken(desired, observed, |observed|, j))
      invariant missing == MissingSpec(desired, observed, i)
    {
      if !matched[i] {
        missing := missing + [desired[i]];
      }
    }
    result := DiffResult(matching, missing, extra);
  }

  lemma {:induction false} TakenStep(desired: seq<Desired>, observed: seq<Observed>, i: nat, j: int)
    requires i < |observed|
    ensures Taken(desired, observed, i + 1, j) <==>
          Taken(desired, observed, i, j) || Candidate(desired, observed[i]) == j
  {
  }

  /** A container matches exactly when it has a candidate that no earlier container took. */
  lemma {:induction false} MatchesWhenFree(desired: seq<Desired>, observed: seq<Observed>, i: nat)
    requires i < |observed|
    ensures Matches(desired, observed, i) <==>
              Candidate(desired, observed[i]) >= 0 && !Taken(desired, observed, i, Candidate(desired, observed[i]))
  {
  }

  // ----- conservation and injectivity, with no assumption on names

  ghost function ObservedIn(m: seq<Pair>): (r: seq<Observed>)
    ensures |r| == |m| && forall i :: 0 <= i < |m| ==> r[i] == m[i].observed
  {
    seq(|m|, i requires 0 <= i < |m| => m[i].observed)
  }

  ghost function DesiredIn(m: seq<Pair>): (r: seq<Desired>)
    ensures |r| == |m| && forall i :: 0 <= i < |m| ==> r[i] == m[i].desired
  {
    seq(|m|, i requires 0 <= i < |m| => m[i].desired)
  }

  lemma {:induction false} ContainersSplit(desired: seq<Desired>, observed: seq<Observed>, n: nat)
    requires n <= |observed|
    ensures multiset(ObservedIn(MatchingSpec(desired, observed, n))) + multiset(ExtraSpec(desired, observed, n))
            == multiset(observed[..n])
  {
    if n == 0 {
      assert ObservedIn(MatchingSpec(desired, observed, 0)) == [] && ExtraSpec(desired, observed, 0) == [] && observed[..0] == [];
    } else {
      ContainersSplit(desired, observed, n - 1);
      ContainerAdded(desired, observed, n - 1);
    }
  }

  lemma {:induction false} ContainerAdded(desired: seq<Desired>, observed: seq<Observed>, n: nat)
    requires n < |observed|
    requires multiset(ObservedIn(MatchingSpec(desired, observed, n))) + multiset(ExtraSpec(desired, observed, n)) == multiset(observed[..n])
    ensures multiset(ObservedIn(MatchingSpec(desired, observed, n + 1))) + multiset(ExtraSpec(desired, observed, n + 1))
            == multiset(observed[..n + 1])
  {
    var before, extra, o := MatchingSpec(desired, observed, n), ExtraSpec(desired, observed, n), observed[n];
    assert observed[..n + 1] == observed[..n] + [o];
    if Matches(desired, observed, n) {
      PairAdded(before, extra, observed[..n], Pair(desired[Candidate(desired, o)], o));
    } else {
      ExtraAdded(before, extra, observed[..n], o);
      assert MatchingSpec(desired, observed, n + 1) == before;
    }
  }

  lemma {:induction false} PairAdded(m: seq<Pair>, extra: seq<Observed>, all: seq<Observed>, p: Pair)
    requires multiset(ObservedIn(m)) + multiset(extra) == multiset(all)
    ensures multiset(ObservedIn(m + [p])) + multiset(extra + []) == multiset(all + [p.observed])
  {
    SnocParts(m, p);
    assert extra + [] == extra;
  }

  lemma {:induction false} ExtraAdded(m: seq<Pair>, extra: seq<Observed>, all: seq<Observed>, o: Observed)
    requires multiset(ObservedIn(m)) + multiset(extra) == multiset(all)
    ensures multiset(ObservedIn(m)) + multiset(extra + [o]) == multiset(all + [o])
  {
  }

  lemma {:induction false} SnocParts(m: seq<Pair>, p: Pair)
    ensures multiset(ObservedIn(m + [p])) == multiset(ObservedIn(m)) + multiset{p.observed}
    ensures multiset(DesiredIn(m + [p])) == multiset(DesiredIn(m)) + multiset{p.desired}
  {
    assert ObservedIn(m + [p]) == ObservedIn(m) + [p.observed];
    assert DesiredIn(m + [p]) == DesiredIn(m) + [p.desired];
  }

  /** The first `m` desired entries that one of the first `n` containers is a candidate for. */
  ghost function TakenEntries(desired: seq<Desired>, observed: seq<Observed>, n: nat, m: nat): seq<Desired>
    requires n <= |observed| && m <= |desired|
  {
    if m == 0 then [] else
      TakenEntries(desired, observed, n, m - 1) + (if Taken(desired, observed, n, m - 1) then [desired[m - 1]] else [])
  }

  lemma {:induction false} EntriesSplit(desired: seq<Desired>, observed: seq<Observed>, m: nat)
    requires m <= |desired|
    ensures multiset(TakenEntries(desired, observed, |observed|, m)) + multiset(MissingSpec(desired, observed, m))
            == multiset(desired[..m])
  {
    if m > 0 {
      EntriesSplit(desired, observed, m - 1);
      assert desired[..m] == desired[..m - 1] + [desired[m - 1]];
      EntryAdded(TakenEntries(desired, observed, |observed|, m - 1), MissingSpec(desired, observed, m - 1), desired[..m - 1],
                 desired[m - 1], Taken(desired, observed, |observed|, m - 1));
    }
  }

  lemma {:induction false} EntryAdded(taken: seq<Desired>, missing: seq<Desired>, all: seq<Desired>, x: Desired,
                                      took: bool)
    requires multiset(taken) + multiset(missing) == multiset(all)
    ensures multiset(taken + (if took then [x] else [])) + multiset(missing + (if took then [] else [x])) == multiset(all + [x])
  {
    assert taken + [] == taken && missing + [] == missing;
  }

  /** A container that matches nothing takes nothing new. */
  lemma {:induction false} NothingMoreTaken(desired: seq<Desired>, observed: seq<Observed>, n: nat, m: nat)
    requires n < |observed| && m <= |desired| && !Matches(desired, observed, n)
    ensures TakenEntries(desired, observed, n + 1, m) == TakenEntries(desired, observed, n, m)
  {
    if m > 0 {
      NothingMoreTaken(desired, observed, n, m - 1);
      TakenStep(desired, observed, n, m - 1);
      MatchesWhenFree(desired, observed, n);
    }
  }

  /** Below its candidate, a container takes nothing. */
  lemma {:induction false} NothingTakenBelow(desired: seq<Desired>, observed: seq<Observed>, n: nat, m: nat)
    requires n < |observed| && m <= Candidate(desired, observed[n])
    ensures TakenEntries(desired, observed, n + 1, m) == TakenEntries(desired, observed, n, m)
  {
    if m > 0 {
      NothingTakenBelow(desired, observed, n, m - 1);
      TakenStep(desired, observed, n, m - 1);
    }
  }

  /** A container that matches takes exactly its candidate. */
  lemma {:induction false} OneMoreTaken(desired: seq<Desired>, observed: seq<Observed>, n: nat, m: nat)
    requires n < |observed| && Matches(desired, observed, n) && Candidate(desired, observed[n]) < m <= |desired|
    ensures multiset(TakenEntries(desired, observed, n + 1, m))
            == multiset(TakenEntries(desired, observed, n, m)) + multiset{desired[Candidate(desired, observed[n])]}
  {
    TakenStep(desired, observed, n, m - 1);
    var before, after := TakenEntries(desired, observed, n, m - 1), TakenEntries(desired, observed, n + 1, m - 1);
    if Candidate(desired, observed[n]) == m - 1 {
      NothingTakenBelow(desired, observed, n, m - 1);
      MatchesWhenFree(desired, observed, n);
      assert TakenEntries(desired, observed, n + 1, m) == before + [desired[m - 1]];
    } else {
      OneMoreTaken(desired, observed, n, m - 1);
      var own := if Taken(desired, observed, n, m - 1) then [desired[m - 1]] else [];
      assert TakenEntries(desired, observed, n + 1, m) == after + own;
    }
  }

  lemma {:induction false} NoneTaken(desired: seq<Desired>, observed: seq<Observed>, m: nat)
    requires m <= |desired|
    ensures TakenEntries(desired, observed, 0, m) == []
  {
    if m > 0 {
      NoneTaken(desired, observed, m - 1);
    }
  }

  /** Both sides gain the same entry, or neither gains any. */
  lemma {:induction false} SameGain(desired: seq<Desired>, observed: seq<Observed>, n: nat)
    requires n < |observed|
    requires multiset(DesiredIn(MatchingSpec(desired, observed, n))) == multiset(TakenEntries(desired, observed, n, |desired|))
    ensures multiset(DesiredIn(MatchingSpec(desired, observed, n + 1))) == multiset(TakenEntries(desired, observed, n + 1, |desired|))
  {
    var before, o := MatchingSpec(desired, observed, n), observed[n];
    if Matches(desired, observed, n) {
      assert MatchingSpec(desired, observed, n + 1) == before + [Pair(desired[Candidate(desired, o)], o)];
      OneMoreTaken(desired, observed, n, |desired|);
      SnocParts(before, Pair(desired[Candidate(desired, o)], o));
    } else {
      assert MatchingSpec(desired, observed, n + 1) == before;
      NothingMoreTaken(desired, observed, n, |desired|);
    }
  }

  lemma {:induction false} MatchedAreTaken(desired: seq<Desired>, observed: seq<Observed>, n: nat)
    requires n <= |observed|
    ensures multiset(DesiredIn(MatchingSpec(desired, observed, n))) == multiset(TakenEntries(desired, observed, n, |desired|))
  {
    if n == 0 {
      NoneTaken(desired, observed, |desired|);
      assert DesiredIn(MatchingSpec(desired, observed, 0)) == [];
    } else {
      MatchedAreTaken(desired, observed, n - 1);
      SameGain(desired, observed, n - 1);
    }
  }

  /**
   The diff loses and invents nothing: the containers are exactly those of the pairs and the
   extras together, the desired entries exactly those of the pairs and the missing together,
   each as often as it was given.
   */
  lemma {:induction false} DiffConserves(desired: seq<Desired>, observed: seq<Observed>)
    ensures var d := DiffSpec(desired, observed);
            && multiset(ObservedIn(d.matching)) + multiset(d.extra) == multiset(observed)
            && multiset(DesiredIn(d.matching)) + multiset(d.missing) == multiset(desired)
  {
    ContainersSplit(desired, observed, |observed|);
    EntriesSplit(desired, observed, |desired|);
    MatchedAreTaken(desired, observed, |observed|);
    assert observed[..|observed|] == observed && desired[..|desired|] == desired;
  }

  /** Where each pair comes from: the index of its container and of its desired entry. */
  ghost function MatchingAt(desired: seq<Desired>, observed: seq<Observed>, n: nat): (r: seq<(nat, nat)>)
    requires n <= |observed|
  {
    if n == 0 then [] else
      MatchingAt(desired, observed, n - 1) + (
        if Matches(desired, observed, n - 1) then [(n - 1, Candidate(desired, observed[n - 1]))] else [])
  }

  /** Pair `a` is container `at[a].0` with entry `at[a].1`, and no earlier container was a candidate for that entry. */
  ghost predicate ComesFromFirst(desired: seq<Desired>, observed: seq<Observed>, p: Pair, at: (nat, nat)) {
    && at.0 < |observed| && at.1 < |desired| && p == Pair(desired[at.1], observed[at.0])
    && Candidate(desired, observed[at.0]) == at.1
    && forall k :: 0 <= k < at.0 ==> Candidate(desired, observed[k]) != at.1
  }

  lemma {:induction false} MatchingComesFrom(desired: seq<Desired>, observed: seq<Observed>, n: nat)
    requires n <= |observed|
    ensures var m, at := MatchingSpec(desired, observed, n), MatchingAt(desired, observed, n);
            |m| == |at| && forall a :: 0 <= a < |m| ==> at[a].0 < n && ComesFromFirst(desired, observed, m[a], at[a])
  {
    if n > 0 {
      MatchingComesFrom(desired, observed, n - 1);
    }
  }

  /** No two pairs come from the same container or from the same desired entry, whatever names collide. */
  lemma {:induction false} MatchingIsInjective(desired: seq<Desired>, observed: seq<Observed>, n: nat)
    requires n <= |observed|
    ensures var at := MatchingAt(desired, observed, n);
            forall a, b :: 0 <= a < b < |at| ==> at[a].0 < at[b].0 && at[a].1 != at[b].1
  {
    if n > 0 {
      MatchingIsInjective(desired, observed, n - 1);
      MatchingComesFrom(desired, observed, n - 1);
      var before, at := MatchingAt(desired, observed, n - 1), MatchingAt(desired, observed, n);
      if Matches(desired, observed, n - 1) {
        forall a | 0 <= a < |before| ensures before[a].0 < n - 1 && before[a].1 != Candidate(desired, observed[n - 1]) {
          assert ComesFromFirst(desired, observed, MatchingSpec(desired, observed, n - 1)[a], before[a]);
        }
      }
    }
  }

  // ----- the rules, field by field

  predicate IsLetter(c: char, lower: char, upper: char) {
    c == lower || c == upper
  }

  /** "running" or anything beginning with "up", each letter in either case. */
  predicate ReadsAsUp(s: string) {
    || (|s| == 7 && IsLetter(s[0], 'r', 'R') && IsLetter(s[1], 'u', 'U') && IsLetter(s[2], 'n', 'N')
        && IsLetter(s[3], 'n', 'N') && IsLetter(s[4], 'i', 'I') && IsLetter(s[5], 'n', 'N') && IsLetter(s[6], 'g', 'G'))
    || (|s| >= 2 && IsLetter(s[0], 'u', 'U') && IsLetter(s[1], 'p', 'P'))
  }

  lemma {:induction false} LowerIs(c: char, lower: char, upper: char)
    requires 'a' <= lower <= 'z' && upper == lower - 'a' + 'A'
    ensures Lower(c) == lower <==> IsLetter(c, lower, upper)
  {
  }

  lemma {:induction false} RunningStateExactly(s: string)
    ensures IsRunningState(s) <==> ReadsAsUp(s)
  {
    if |s| >= 2 {
      LowerIs(s[0], 'u', 'U');
      LowerIs(s[1], 'p', 'P');
      assert EqualFold(s[..2], "up") <==> Lower(s[0]) == 'u' && Lower(s[1]) == 'p';
    }
    if |s| == 7 {
      LowerIs(s[0], 'r', 'R');
      LowerIs(s[1], 'u', 'U');
      LowerIs(s[2], 'n', 'N');
      LowerIs(s[3], 'n', 'N');
      LowerIs(s[4], 'i', 'I');
      LowerIs(s[5], 'n', 'N');
      LowerIs(s[6], 'g', 'G');
      assert EqualFold(s, "running") <==>
          Lower(s[0]) == 'r' && Lower(s[1]) == 'u' && Lower(s[2]) == 'n' && Lower(s[3]) == 'n'
          && Lower(s[4]) == 'i' && Lower(s[5]) == 'n' && Lower(s[6]) == 'g';
    }
  }

  /** The instance a container is for: its key, or failing that its label. */
  function InstanceNamed(o: Observed): string {
    if o.instanceKey != "" then o.instanceKey
    else if "nebula.instance_id" in o.labels then o.labels["nebula.instance_id"] else ""
  }

  /** A container is a candidate for the last desired entry that has its name as key or ID, if it is up and has a name. */
  lemma {:induction false} CandidateExactly(desired: seq<Desired>, o: Observed, j: nat)
    requires j < |desired|
    ensures Candidate(desired, o) == j <==>
              && ReadsAsUp(o.state) && InstanceNamed(o) != ""
              && (desired[j].instanceKey == InstanceNamed(o) || desired[j].instanceID == InstanceNamed(o))
              && forall k :: j < k < |desired| ==>
                   desired[k].instanceKey != InstanceNamed(o) && desired[k].instanceID != InstanceNamed(o)
  {
    RunningStateExactly(o.state);
    var name := InstanceNamed(o);
    assert NameOf(o) == name;
    var r := Resolve(desired, name, |desired|);
    if r >= 0 {
      assert Carries(desired[r], name);
    }
  }

  lemma {:induction false} ExtrasHold(desired: seq<Desired>, observed: seq<Observed>, n: nat, i: nat)
    requires i < n <= |observed| && !Matches(desired, observed, i)
    ensures observed[i] in ExtraSpec(desired, observed, n)
  {
    if i < n - 1 {
      ExtrasHold(desired, observed, n - 1, i);
    }
  }

  /** A container that is not up, or has no name, is extra, whatever is desired. */
  lemma {:induction false} DownIsExtra(desired: seq<Desired>, observed: seq<Observed>, i: nat)
    requires i < |observed| && (!ReadsAsUp(observed[i].state) || InstanceNamed(observed[i]) == "")
    ensures observed[i] in DiffSpec(desired, observed).extra
  {
    RunningStateExactly(observed[i].state);
    assert NameOf(observed[i]) == InstanceNamed(observed[i]);
    ExtrasHold(desired, observed, |observed|, i);
  }
}
