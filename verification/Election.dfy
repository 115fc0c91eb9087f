/**
 Leader election, internal/ha/election.go.  Any number of electors share one advisory
 lock.  Every shared access of the source is one step, so a lock grant, a step-down, a
 stop and a decision can each be in flight while other electors move and time passes.
 */
module Election {
  import opened Wrappers
  import opened AdvisoryLock
  import Runs

  datatype Role = Standby | Leader | Fenced

  /** Program counter of the campaign loop inside one tick. */
  datatype Campaign =
    | Idle         // waiting for the ticker
    | WillRenew    // saw LEADER, lock call not made yet
    | WillAcquire  // saw a role other than LEADER, lock call not made yet
    | HasGrant     // TryAcquire succeeded, promotion not done yet
    | MustStepDown // renewal failed, step-down not started yet
    | Fencing      // moved LEADER to FENCED, has not stored STANDBY yet

  /** Program counter of the goroutine that called Stop. */
  datatype Stopper = NotStopped | StopChecking | StopStepping | StopFencing | StopReleasing | StopDone

  /**
   `deciding` counts RecordDecision calls that passed the leader test and have not yet
   stamped; `lastGrant` is the time of the elector's last successful lock call.
   */
  datatype Elector = Elector(
    lockID: int, role: Role, campaign: Campaign, stopper: Stopper,
    deciding: nat, lastGrant: int)

  /** A recorded decision; `term` numbers the ownership period in which it was stamped. */
  datatype Decision = Decision(recorder: string, stamp: int, term: nat)

  /** `terms` is the history of the lock's owner, the last entry being the present one. */
  datatype System = System(
    now: int,
    lock: LockState,
    electors: map<string, Elector>,
    terms: seq<string>,
    decisions: seq<Decision>)

  datatype Step =
    | Advance(elapsed: nat)
    | Partition(owner: string, cut: bool)
    | Tick(id: string)
    | CallLock(id: string)
    | Promote(id: string)
    | CampaignStepDown(id: string)
    | StepDown(id: string)
    | Unfence(id: string)
    | StopBegin(id: string)
    | StopCheck(id: string)
    | StopStepDown(id: string)
    | StopRelease(id: string)
    | DecideBegin(id: string)
    | DecideStamp(id: string)

  ghost predicate Init(s: System) {
    && "" !in s.electors
    && s.lock.owner == ""
    && s.terms == [""]
    && s.decisions == []
    && forall e :: e in s.electors ==> Fresh(s.electors[e])
  }

  predicate Fresh(el: Elector) {
    el.role == Standby && el.campaign == Idle && el.stopper == NotStopped && el.deciding == 0
  }

  function Put(s: System, id: string, el: Elector): System {
    s.(electors := s.electors[id := el])
  }

  /** Installs a new lock state, opening a new term when the owner changed. */
  function SetLock(s: System, l: LockState): System {
    s.(lock := l, terms := if l.owner == s.lock.owner then s.terms else s.terms + [l.owner])
  }

  function AfterLockCall(s: System, id: string, el: Elector): System {
    if el.campaign == WillRenew then
      var (l, reply) := RenewOrHold(s.lock, s.now, el.lockID, id);
      if reply == Granted then
        Put(SetLock(s, l), id, el.(campaign := Idle, lastGrant := s.now))
      else
        Put(s, id, el.(campaign := MustStepDown))
    else
      var (l, reply) := TryAcquire(s.lock, s.now, el.lockID, id);
      if reply == Granted then
        Put(SetLock(s, l), id, el.(campaign := HasGrant, lastGrant := s.now))
      else
        Put(s, id, el.(campaign := Idle))
  }

  /** One step of elector `id`, or None when the step is not enabled. */
  function ElectorStep(s: System, step: Step, id: string): Option<System>
    requires id in s.electors
  {
    var el := s.electors[id];
    match step
    case Tick(_) =>
      if el.campaign != Idle then None
      else Some(Put(s, id, el.(campaign := if el.role == Leader then WillRenew else WillAcquire)))
    case CallLock(_) =>
      if el.campaign != WillRenew && el.campaign != WillAcquire then None
      else Some(AfterLockCall(s, id, el))
    case Promote(_) =>
      if el.campaign != HasGrant then None
      else Some(Put(s, id, el.(campaign := Idle, role := if el.role == Standby then Leader else el.role)))
    case CampaignStepDown(_) =>
      if el.campaign != MustStepDown then None
      else if el.role == Leader then Some(Put(s, id, el.(campaign := Fencing, role := Fenced)))
      else Some(Put(s, id, el.(campaign := Idle)))
    case StepDown(_) =>
      if el.role == Leader then Some(Put(s, id, el.(role := Fenced))) else Some(s)
    case Unfence(_) =>
      if el.role != Fenced then None
      else Some(Put(s, id, el.(
        role := Standby,
        campaign := if el.campaign == Fencing then Idle else el.campaign,
        stopper := if el.stopper == StopFencing then StopReleasing else el.stopper)))
    case StopBegin(_) =>
      if el.stopper != NotStopped then Some(s) else Some(Put(s, id, el.(stopper := StopChecking)))
    case StopCheck(_) =>
      if el.stopper != StopChecking then None
      else Some(Put(s, id, el.(stopper := if el.role == Leader then StopStepping else StopDone)))
    case StopStepDown(_) =>
      if el.stopper != StopStepping then None
      else if el.role == Leader then Some(Put(s, id, el.(stopper := StopFencing, role := Fenced)))
      else Some(Put(s, id, el.(stopper := StopReleasing)))
    case StopRelease(_) =>
      if el.stopper != StopReleasing then None
      else Some(Put(SetLock(s, Release(s.lock, el.lockID, id)), id, el.(stopper := StopDone)))
    case DecideBegin(_) =>
      if el.role == Leader then Some(Put(s, id, el.(deciding := el.deciding + 1))) else Some(s)
    case DecideStamp(_) =>
      if el.deciding == 0 || |s.terms| == 0 then None
      else Some(Put(s, id, el.(deciding := el.deciding - 1))
                .(decisions := s.decisions + [Decision(id, s.now, |s.terms| - 1)]))
    case _ => None
  }

  function Next(s: System, step: Step): Option<System> {
    match step
    case Advance(elapsed) => Some(s.(now := s.now + elapsed))
    case Partition(o, cut) =>
      Some(s.(lock := s.lock.(partitions := if cut then s.lock.partitions + {o} else s.lock.partitions - {o})))
    case _ => if step.id in s.electors then ElectorStep(s, step, step.id) else None
  }

  /** Runs a list of steps; None when some step is not enabled. */
  function Exec(s: System, steps: seq<Step>): Option<System> {
    Runs.Exec(Next, s, steps)
  }

  // ----- the discipline under which the protocol is safe

  /** The elector acts, or is about to act, on the strength of its last grant. */
  predicate Exposed(el: Elector) {
    el.role == Leader || el.campaign == HasGrant || el.deciding > 0
  }

  /** Every exposed elector is still within the lease of its last successful lock call. */
  ghost predicate Timely(s: System) {
    forall e :: e in s.electors && Exposed(s.electors[e]) ==> s.now - s.electors[e].lastGrant <= s.lock.ttl
  }

  /** Stop gives the lock back only while nothing of its elector relies on it. */
  predicate QuietRelease(s: System, step: Step) {
    step.StopRelease? && step.id in s.electors ==> !Exposed(s.electors[step.id])
  }

  /** Every step of the run is taken from a timely state, and every release is quiet. */
  ghost predicate Disciplined(s: System, steps: seq<Step>)
    decreases |steps|
  {
    steps == [] ||
    (Timely(s) && QuietRelease(s, steps[0]) &&
     (Next(s, steps[0]).Some? ==> Disciplined(Next(s, steps[0]).value, steps[1..])))
  }

  // ----- what is to be shown of every reachable state

  ghost predicate AtMostOneLeader(s: System) {
    forall e, f :: e in s.electors && f in s.electors && s.electors[e].role == Leader && s.electors[f].role == Leader ==> e == f
  }

  ghost predicate LeadersOwnTheLock(s: System) {
    forall e :: e in s.electors && s.electors[e].role == Leader ==> s.lock.owner == e
  }

  /**
   Every decision was stamped in a term owned by its recorder, terms and stamps never run
   backwards, so the decisions of one term are contiguous and all by one elector.
   */
  ghost predicate DecisionsFenced(s: System) {
    && (forall i :: 0 <= i < |s.decisions| ==>
          s.decisions[i].term < |s.terms| && s.terms[s.decisions[i].term] == s.decisions[i].recorder && s.decisions[i].stamp <= s.now)
    && (forall i, j :: 0 <= i < j < |s.decisions| ==>
          s.decisions[i].term <= s.decisions[j].term && s.decisions[i].stamp <= s.decisions[j].stamp)
  }

  // ----- the invariant

  ghost predicate LockMatchesOwner(s: System) {
    s.lock.owner != "" ==>
      && s.lock.owner in s.electors
      && s.lock.lockID == s.electors[s.lock.owner].lockID
      && s.lock.lastRenew == s.electors[s.lock.owner].lastGrant
  }

  ghost predicate ExposedOwn(s: System) {
    forall e :: e in s.electors && Exposed(s.electors[e]) ==> s.lock.owner == e
  }

  ghost predicate Inv(s: System) {
    && "" !in s.electors
    && s.terms != [] && s.terms[|s.terms| - 1] == s.lock.owner
    && LockMatchesOwner(s)
    && ExposedOwn(s)
    && DecisionsFenced(s)
  }

  /** A grant to `id` deposes only an owner that no longer relies on the lock. */
  lemma {:induction false} GrantDeposesNobodyExposed(s: System, id: string, e: string)
    requires Inv(s) && Timely(s) && id in s.electors && e in s.electors && e != id
    requires id !in s.lock.partitions && OpenTo(s.lock, s.now, id)
    ensures !Exposed(s.electors[e])
  {
  }

  lemma {:induction false} LockCallKeepsInv(s: System, id: string)
    requires Inv(s) && Timely(s) && id in s.electors
    requires s.electors[id].campaign == WillRenew || s.electors[id].campaign == WillAcquire
    ensures Inv(AfterLockCall(s, id, s.electors[id]))
  {
    var el := s.electors[id];
    var t := AfterLockCall(s, id, el);
    if el.campaign == WillAcquire && id !in s.lock.partitions && OpenTo(s.lock, s.now, id) {
      forall e | e in t.electors && Exposed(t.electors[e]) ensures t.lock.owner == e {
        if e != id {
          GrantDeposesNobodyExposed(s, id, e);
        }
      }
    }
  }

  lemma {:induction false} StepKeepsInv(s: System, step: Step)
    requires Inv(s) && Timely(s) && QuietRelease(s, step) && Next(s, step).Some?
    ensures Inv(Next(s, step).value)
  {
    match step
    case CallLock(id) => LockCallKeepsInv(s, id);
    case StopRelease(id) => ReleaseKeepsInv(s, id);
    case DecideStamp(id) => StampKeepsInv(s, id);
    case _ => LocalStepKeepsInv(s, step);
  }

  lemma {:induction false} ReleaseKeepsInv(s: System, id: string)
    requires Inv(s) && QuietRelease(s, StopRelease(id)) && Next(s, StopRelease(id)).Some?
    ensures Inv(Next(s, StopRelease(id)).value)
  {
  }

  lemma {:induction false} StampKeepsInv(s: System, id: string)
    requires Inv(s) && Next(s, DecideStamp(id)).Some?
    ensures Inv(Next(s, DecideStamp(id)).value)
  {
  }

  /** A step that touches neither the lock's owner nor the decisions. */
  lemma {:induction false} LocalStepKeepsInv(s: System, step: Step)
    requires Inv(s) && Next(s, step).Some? && !step.CallLock? && !step.StopRelease? && !step.DecideStamp?
    ensures Inv(Next(s, step).value)
  {
  }

  lemma {:induction false} RunKeepsInv(s: System, steps: seq<Step>)
    requires Inv(s) && Disciplined(s, steps) && Exec(s, steps).Some?
    ensures Inv(Exec(s, steps).value)
    decreases |steps|
  {
    if steps != [] {
      StepKeepsInv(s, steps[0]);
      RunKeepsInv(Next(s, steps[0]).value, steps[1..]);
    }
  }

  /** Safety of every disciplined run of any number of electors. */
  lemma {:induction false} ElectionIsSafe(s: System, steps: seq<Step>)
    requires Init(s) && Disciplined(s, steps) && Exec(s, steps).Some?
    ensures var t := Exec(s, steps).value;
            AtMostOneLeader(t) && LeadersOwnTheLock(t) && DecisionsFenced(t)
  {
    RunKeepsInv(s, steps);
  }

  /** Two decisions of the same term have the same recorder; a change of recorder is a change of term. */
  lemma {:induction false} NoInterleavedDecisions(s: System, steps: seq<Step>, i: int, j: int, k: int)
    requires Init(s) && Disciplined(s, steps) && Exec(s, steps).Some?
    requires 0 <= i <= j <= k < |Exec(s, steps).value.decisions|
    requires Exec(s, steps).value.decisions[i].term == Exec(s, steps).value.decisions[k].term
    ensures Exec(s, steps).value.decisions[i].recorder == Exec(s, steps).value.decisions[j].recorder
            == Exec(s, steps).value.decisions[k].recorder
  {
    ElectionIsSafe(s, steps);
  }

  // ----- the discipline is exactly what is needed

  /** An elector with nothing in flight that can reach the lock. */
  predicate Ready(s: System, f: string) {
    f in s.electors && f !in s.lock.partitions
    && s.electors[f].role == Standby && s.electors[f].campaign == Idle
  }

  function Bid(f: string): seq<Step> {
    [Tick(f), CallLock(f), Promote(f)]
  }

  /** A ready elector's tick makes it leader exactly when the lock is open to it. */
  lemma {:induction false} BidOutcome(s: System, f: string)
    requires Ready(s, f)
    ensures OpenTo(s.lock, s.now, f) ==>
              Exec(s, Bid(f)) == Some(Put(SetLock(s, TryAcquire(s.lock, s.now, s.electors[f].lockID, f).0), f,
                                          s.electors[f].(role := Leader, lastGrant := s.now)))
    ensures !OpenTo(s.lock, s.now, f) ==> Exec(s, Bid(f)) == None
  {
    var el := s.electors[f];
    var t := Next(s, Tick(f)).value;
    assert t == Put(s, f, el.(campaign := WillAcquire));
    var u := Next(t, CallLock(f)).value;
    Runs.ExecThree(Next, s, Tick(f), CallLock(f), Promote(f));
    if OpenTo(s.lock, s.now, f) {
      var won := SetLock(s, TryAcquire(s.lock, s.now, el.lockID, f).0);
      assert u == Put(won, f, el.(campaign := HasGrant, lastGrant := s.now));
      assert Next(u, Promote(f)).value == Put(won, f, el.(role := Leader, lastGrant := s.now));
    } else {
      assert u.electors[f].campaign == Idle;
    }
  }

  ghost predicate TwoLeaders(r: Option<System>, e: string, f: string) {
    r.Some? && e in r.value.electors && f in r.value.electors && e != f
    && r.value.electors[e].role == Leader && r.value.electors[f].role == Leader
  }

  /**
   From any state the protocol can be in, a rival of the leader can make the cluster have
   two leaders by one tick of its own if and only if the leader has outlived its lease.
   */
  lemma {:induction false} TimelinessIsExact(s: System, e: string, f: string)
    requires Inv(s) && e in s.electors && s.electors[e].role == Leader
    requires Ready(s, f) && f != e
    ensures TwoLeaders(Exec(s, Bid(f)), e, f) <==> s.now - s.electors[e].lastGrant > s.lock.ttl
  {
    BidOutcome(s, f);
    assert s.lock.owner == e;
    assert Expired(s.lock, s.now) <==> s.now - s.electors[e].lastGrant > s.lock.ttl;
  }

  /** The steps of a Stop that overlaps one tick of the same elector's campaign loop. */
  function StopDuringTick(e: string): seq<Step> {
    [StopBegin(e), StopCheck(e), StopStepDown(e), Tick(e), Unfence(e), CallLock(e), Promote(e), StopRelease(e)]
  }

  /** Stop up to the point where it has fenced the leader and the campaign loop ticks. */
  lemma {:induction false} StopFencesLeader(s: System, e: string)
    requires e in s.electors
    requires s.electors[e].role == Leader && s.electors[e].campaign == Idle && s.electors[e].stopper == NotStopped
    ensures Exec(s, [StopBegin(e), StopCheck(e), StopStepDown(e), Tick(e)]) ==
            Some(Put(s, e, s.electors[e].(stopper := StopFencing, role := Fenced, campaign := WillAcquire)))
  {
    var el := s.electors[e];
    var a := Next(s, StopBegin(e)).value;
    assert a == Put(s, e, el.(stopper := StopChecking));
    var b := Next(a, StopCheck(e)).value;
    assert b == Put(s, e, el.(stopper := StopStepping));
    var c := Next(b, StopStepDown(e)).value;
    assert c == Put(s, e, el.(stopper := StopFencing, role := Fenced));
    Runs.ExecThree(Next, s, StopBegin(e), StopCheck(e), StopStepDown(e));
    assert [StopBegin(e), StopCheck(e), StopStepDown(e), Tick(e)] ==
           [StopBegin(e), StopCheck(e), StopStepDown(e)] + [Tick(e)];
    Runs.ExecAppend(Next, s, [StopBegin(e), StopCheck(e), StopStepDown(e)], [Tick(e)]);
    Runs.ExecOne(Next, c, Tick(e));
    assert Next(c, Tick(e)).value == Put(s, e, el.(stopper := StopFencing, role := Fenced, campaign := WillAcquire));
  }

  /** The loop then wins the lock once more, since it still owns it, and is promoted again. */
  lemma {:induction false} StoppingLeaderIsPromotedAgain(m: System, e: string)
    requires e in m.electors && e !in m.lock.partitions && m.lock.owner == e
    requires m.electors[e].stopper == StopFencing && m.electors[e].role == Fenced
    requires m.electors[e].campaign == WillAcquire
    ensures Exec(m, [Unfence(e), CallLock(e), Promote(e)]) ==
            Some(Put(m.(lock := m.lock.(lockID := m.electors[e].lockID, lastRenew := m.now)), e,
                     m.electors[e].(stopper := StopReleasing, role := Leader, campaign := Idle, lastGrant := m.now)))
  {
    var el := m.electors[e];
    var a := Next(m, Unfence(e)).value;
    assert a == Put(m, e, el.(stopper := StopReleasing, role := Standby));
    var b := Next(a, CallLock(e)).value;
    assert b == Put(m.(lock := m.lock.(lockID := el.lockID, lastRenew := m.now)), e,
                    el.(stopper := StopReleasing, role := Standby, campaign := HasGrant, lastGrant := m.now));
    assert Next(b, Promote(e)).value == Put(b, e, b.electors[e].(role := Leader, campaign := Idle));
    assert Next(b, Promote(e)).value ==
           Put(m.(lock := m.lock.(lockID := el.lockID, lastRenew := m.now)), e,
               el.(stopper := StopReleasing, role := Leader, campaign := Idle, lastGrant := m.now));
    Runs.ExecThree(Next, m, Unfence(e), CallLock(e), Promote(e));
  }

  /** All of it: the elector ends up LEADER of a lock that its own Stop has set free. */
  lemma {:induction false} StopDuringTickFreesTheLock(s: System, e: string)
    requires e in s.electors && e !in s.lock.partitions && s.lock.owner == e
    requires s.electors[e].role == Leader && s.electors[e].campaign == Idle && s.electors[e].stopper == NotStopped
    ensures var r := Exec(s, StopDuringTick(e));
            r.Some? && r.value.lock == s.lock.(owner := "", lockID := 0, lastRenew := s.now) && r.value.now == s.now
            && r.value.electors == s.electors[e := s.electors[e].(stopper := StopDone, lastGrant := s.now)]
  {
    var first := [StopBegin(e), StopCheck(e), StopStepDown(e), Tick(e)];
    var second := [Unfence(e), CallLock(e), Promote(e)];
    StopFencesLeader(s, e);
    Runs.ExecAppend(Next, s, first, second);
    StoppingLeaderIsPromotedAgain(Exec(s, first).value, e);
    Runs.ExecAppend(Next, s, first + second, [StopRelease(e)]);
    assert StopDuringTick(e) == first + second + [StopRelease(e)];
    Runs.ExecOne(Next, Exec(s, first + second).value, StopRelease(e));
  }

  /**
   Without quiet release the protocol is not safe: whenever a leader stops while its own
   loop is ticking, the lock it has just been granted again is given away, and any ready
   elector becomes a second leader although no time has passed.
   */
  lemma {:induction false} NoisyReleaseSplitsBrain(s: System, e: string, f: string)
    requires Inv(s) && Timely(s)
    requires e in s.electors && e !in s.lock.partitions
    requires s.electors[e].role == Leader && s.electors[e].campaign == Idle && s.electors[e].stopper == NotStopped
    requires Ready(s, f) && f != e
    ensures TwoLeaders(Exec(s, StopDuringTick(e) + Bid(f)), e, f)
    ensures Exec(s, StopDuringTick(e) + Bid(f)).value.now == s.now
  {
    StopDuringTickFreesTheLock(s, e);
    var r := Exec(s, StopDuringTick(e)).value;
    assert r.electors[f] == s.electors[f];
    BidOutcome(r, f);
    Runs.ExecAppend(Next, s, StopDuringTick(e), Bid(f));
  }

  // ----- quiet release is exactly what is needed

  /** What every state of a disciplined run meets. */
  ghost predicate Safe(s: System) {
    AtMostOneLeader(s) && LeadersOwnTheLock(s) && DecisionsFenced(s)
  }

  /** A disciplined run that ends in a state that is not safe. */
  ghost predicate Violates(s: System, steps: seq<Step>) {
    Disciplined(s, steps) && Exec(s, steps).Some? && !Safe(Exec(s, steps).value)
  }

  /** Stop is about to give the lock back. */
  predicate Releasing(s: System, e: string) {
    e in s.electors && s.electors[e].stopper == StopReleasing
  }

  function Released(s: System, e: string): System
    requires Releasing(s, e)
  {
    Put(SetLock(s, Release(s.lock, s.electors[e].lockID, e)), e, s.electors[e].(stopper := StopDone))
  }

  /** Giving the lock back ends the owner's term and changes nothing an elector relies on. */
  lemma {:induction false} ReleaseEndsTerm(s: System, e: string)
    requires Inv(s) && Releasing(s, e) && s.lock.owner == e
    ensures Next(s, StopRelease(e)) == Some(Released(s, e))
    ensures var r := Released(s, e);
            r.lock.owner == "" && r.terms == s.terms + [""] && r.now == s.now && r.lock.ttl == s.lock.ttl && r.decisions == s.decisions
            && r.lock.partitions == s.lock.partitions
            && r.electors == s.electors[e := s.electors[e].(stopper := StopDone)]
    ensures Timely(s) ==> Timely(Released(s, e))
  {
  }

  lemma {:induction false} OneStepDisciplined(s: System, a: Step)
    requires Timely(s) && !a.StopRelease?
    ensures Disciplined(s, [a])
  {
    assert [a][1..] == [];
  }

  lemma {:induction false} LeaderViolates(r: System, e: string)
    requires "" !in r.electors && e in r.electors && r.electors[e].role == Leader && r.lock.owner == ""
    ensures Violates(r, [])
  {
  }

  lemma {:induction false} GrantViolates(r: System, e: string)
    requires Timely(r) && "" !in r.electors && e in r.electors && r.electors[e].role == Standby
    requires r.electors[e].campaign == HasGrant
    requires r.lock.owner == ""
    ensures Violates(r, [Promote(e)])
  {
    OneStepDisciplined(r, Promote(e));
    Runs.ExecOne(Next, r, Promote(e));
    assert Next(r, Promote(e)).value.electors[e].role == Leader;
  }

  lemma {:induction false} FencedGrantViolates(r: System, e: string)
    requires Timely(r) && "" !in r.electors && e in r.electors && r.electors[e].role == Fenced
    requires r.electors[e].campaign == HasGrant
    requires r.lock.owner == ""
    ensures Violates(r, [Unfence(e), Promote(e)])
  {
    var u := Next(r, Unfence(e)).value;
    assert Timely(u);
    OneStepDisciplined(u, Promote(e));
    assert [Unfence(e), Promote(e)][1..] == [Promote(e)];
    Runs.ExecTwo(Next, r, Unfence(e), Promote(e));
    assert Next(u, Promote(e)).value.electors[e].role == Leader;
  }

  lemma {:induction false} DecisionViolates(r: System, e: string)
    requires Timely(r) && e in r.electors && e != "" && r.electors[e].deciding > 0
    requires r.terms != [] && r.terms[|r.terms| - 1] == ""
    ensures Violates(r, [DecideStamp(e)])
  {
    OneStepDisciplined(r, DecideStamp(e));
    Runs.ExecOne(Next, r, DecideStamp(e));
    var t := Next(r, DecideStamp(e)).value;
    var last := t.decisions[|t.decisions| - 1];
    assert last == Decision(e, r.now, |r.terms| - 1) && t.terms[last.term] == "";
  }

  /**
   Quiet release is exact: from any state of the protocol in which Stop is about to give the
   lock back, a disciplined continuation can break safety if and only if the elector still
   relies on the lock - it leads, has a grant in flight, or has a decision under way.
   */
  lemma {:induction false} QuietReleaseIsExact(s: System, e: string)
    requires Inv(s) && Timely(s) && Releasing(s, e)
    ensures Exposed(s.electors[e]) <==> exists steps :: Violates(Released(s, e), steps)
  {
    var el, r := s.electors[e], Released(s, e);
    if Exposed(el) {
      ReleaseEndsTerm(s, e);
      if el.role == Leader {
        LeaderViolates(r, e);
      } else if el.deciding > 0 {
        DecisionViolates(r, e);
      } else if el.role == Standby {
        GrantViolates(r, e);
      } else {
        FencedGrantViolates(r, e);
      }
    } else {
      StepKeepsInv(s, StopRelease(e));
      forall steps ensures !Violates(r, steps) {
        if Disciplined(r, steps) && Exec(r, steps).Some? {
          RunKeepsInv(r, steps);
        }
      }
    }
  }

  /** Elector `e` has just stamped a decision in a term that `f` owns. */
  ghost predicate StampsInTermOf(r: Option<System>, e: string, f: string) {
    r.Some? && r.value.decisions != [] && |r.value.terms| > 0
    && r.value.decisions[|r.value.decisions| - 1] == Decision(e, r.value.now, |r.value.terms| - 1)
    && r.value.terms[|r.value.terms| - 1] == f
  }

  /** The state after the release and a rival's tick. */
  lemma {:induction false} RivalTakesOver(s: System, e: string, f: string)
    requires Inv(s) && Releasing(s, e) && s.lock.owner == e && Ready(s, f) && f != e
    ensures var r := Exec(s, [StopRelease(e)] + Bid(f));
            && r.Some? && r.value.now == s.now && r.value.lock.owner == f && r.value.decisions == s.decisions
            && r.value.terms != [] && r.value.terms[|r.value.terms| - 1] == f
            && f in r.value.electors && r.value.electors[f].role == Leader
            && e in r.value.electors && r.value.electors[e] == s.electors[e].(stopper := StopDone)
  {
    var r := Released(s, e);
    ReleaseEndsTerm(s, e);
    Runs.ExecOne(Next, s, StopRelease(e));
    Runs.ExecAppend(Next, s, [StopRelease(e)], Bid(f));
    BidOutcome(r, f);
  }

  /**
   With a rival at hand no time need pass: after the release and one tick of the rival there
   are two leaders if and only if the elector led, there are after its own promotion if and
   only if it had a grant in flight and was not fenced, and its decision falls into the
   rival's term if and only if one was under way.
   */
  lemma {:induction false} ReleaseSplitsBrainExactly(s: System, e: string, f: string)
    requires Inv(s) && Releasing(s, e) && s.lock.owner == e && Ready(s, f) && f != e
    ensures var after := [StopRelease(e)] + Bid(f); var el := s.electors[e];
            && (TwoLeaders(Exec(s, after), e, f) <==> el.role == Leader)
            && (TwoLeaders(Exec(s, after + [Promote(e)]), e, f) <==> el.campaign == HasGrant && el.role != Fenced)
            && (StampsInTermOf(Exec(s, after + [DecideStamp(e)]), e, f) <==> el.deciding > 0)
  {
    var after := [StopRelease(e)] + Bid(f);
    RivalTakesOver(s, e, f);
    var u := Exec(s, after).value;
    Runs.ExecAppend(Next, s, after, [Promote(e)]);
    Runs.ExecAppend(Next, s, after, [DecideStamp(e)]);
    Runs.ExecOne(Next, u, Promote(e));
    Runs.ExecOne(Next, u, DecideStamp(e));
  }

  /**
   An elector that relies on its grant in any way: a rival's tick breaks safety if and only if the
   lease has lapsed.
   */
  lemma {:induction false} LapseIsExact(s: System, e: string, f: string)
    requires Inv(s) && e in s.electors && Exposed(s.electors[e]) && Ready(s, f) && f != e
    ensures var el := s.electors[e]; var lapsed := s.now - el.lastGrant > s.lock.ttl;
            && (el.role == Leader ==> (TwoLeaders(Exec(s, Bid(f)), e, f) <==> lapsed))
            && (el.campaign == HasGrant && el.role != Fenced ==>
                (TwoLeaders(Exec(s, Bid(f) + [Promote(e)]), e, f) <==> lapsed))
            && (el.deciding > 0 ==> (StampsInTermOf(Exec(s, Bid(f) + [DecideStamp(e)]), e, f) <==> lapsed))
  {
    BidOutcome(s, f);
    assert s.lock.owner == e;
    assert Expired(s.lock, s.now) <==> s.now - s.electors[e].lastGrant > s.lock.ttl;
    Runs.ExecAppend(Next, s, Bid(f), [Promote(e)]);
    Runs.ExecAppend(Next, s, Bid(f), [DecideStamp(e)]);
    if OpenTo(s.lock, s.now, f) {
      var u := Exec(s, Bid(f)).value;
      Runs.ExecOne(Next, u, Promote(e));
      Runs.ExecOne(Next, u, DecideStamp(e));
    }
  }

  // ----- what each tick and stop does, field by field

  /** Everything but the elector and the lock is as it was. */
  ghost predicate OnlyElectorAndLock(s: System, v: System, e: string) {
    && v.now == s.now && v.decisions == s.decisions && v.electors.Keys == s.electors.Keys
    && v.lock.ttl == s.lock.ttl && v.lock.partitions == s.lock.partitions
    && forall f :: f in s.electors && f != e ==> v.electors[f] == s.electors[f]
  }

  /** A leader that can reach the lock it owns renews: it leads on, with a lease that starts now, in the same term. */
  lemma {:induction false} LeaderRenews(s: System, e: string)
    requires Inv(s) && e in s.electors && e !in s.lock.partitions
    requires s.electors[e].role == Leader && s.electors[e].campaign == Idle
    ensures var r := Exec(s, [Tick(e), CallLock(e)]);
            && r.Some? && OnlyElectorAndLock(s, r.value, e) && r.value.terms == s.terms
            && r.value.lock.owner == e && r.value.lock.lastRenew == s.now && r.value.lock.lockID == s.lock.lockID
            && r.value.electors[e].role == Leader && r.value.electors[e].campaign == Idle
            && r.value.electors[e].lastGrant == s.now
  {
    Runs.ExecTwo(Next, s, Tick(e), CallLock(e));
    assert s.lock.owner == e;
  }

  /** A leader whose renewal does not go through ends in standby, and the lock is as it was. */
  lemma {:induction false} LostRenewalStepsDown(s: System, e: string)
    requires e in s.electors && s.electors[e].role == Leader && s.electors[e].campaign == Idle
    requires e in s.lock.partitions || s.lock.owner != e || s.lock.lockID != s.electors[e].lockID
    ensures var r := Exec(s, [Tick(e), CallLock(e)] + [CampaignStepDown(e), Unfence(e)]);
            && r.Some? && OnlyElectorAndLock(s, r.value, e) && r.value.lock == s.lock && r.value.terms == s.terms
            && r.value.electors[e].role == Standby && r.value.electors[e].campaign == Idle
            && r.value.electors[e].lastGrant == s.electors[e].lastGrant
  {
    Runs.ExecTwo(Next, s, Tick(e), CallLock(e));
    var u := Next(Next(s, Tick(e)).value, CallLock(e)).value;
    assert u.electors[e].campaign == MustStepDown && u.electors[e].role == Leader;
    Runs.ExecTwo(Next, u, CampaignStepDown(e), Unfence(e));
    Runs.ExecAppend(Next, s, [Tick(e), CallLock(e)], [CampaignStepDown(e), Unfence(e)]);
  }

  /** A standby elector whose call goes through on a free, own or expired lock leads in a lease of its own. */
  lemma {:induction false} BidWins(s: System, f: string)
    requires Inv(s) && Ready(s, f)
    requires s.lock.owner == "" || s.lock.owner == f || s.now - s.lock.lastRenew > s.lock.ttl
    ensures var r := Exec(s, Bid(f));
            && r.Some? && OnlyElectorAndLock(s, r.value, f)
            && r.value.lock.owner == f && r.value.lock.lastRenew == s.now && r.value.lock.lockID == s.electors[f].lockID
            && r.value.electors[f].role == Leader && r.value.electors[f].campaign == Idle
            && r.value.electors[f].lastGrant == s.now
            && r.value.terms == if s.lock.owner == f then s.terms else s.terms + [f]
  {
    BidOutcome(s, f);
  }

  /** Any other bid, and any bid from behind a partition, changes nothing. */
  lemma {:induction false} BidLoses(s: System, f: string)
    requires f in s.electors && s.electors[f].role == Standby && s.electors[f].campaign == Idle
    requires f in s.lock.partitions
             || (s.lock.owner != "" && s.lock.owner != f && s.now - s.lock.lastRenew <= s.lock.ttl)
    ensures Exec(s, [Tick(f), CallLock(f)]) == Some(s)
  {
    Runs.ExecTwo(Next, s, Tick(f), CallLock(f));
    var u := Next(s, Tick(f)).value;
    assert Next(u, CallLock(f)).value.electors == s.electors;
  }

  /** A Stop with nothing else in flight leaves a leader in standby and its lock free. */
  lemma {:induction false} StopAlone(s: System, e: string)
    requires Inv(s) && e in s.electors && s.electors[e].role == Leader
    requires s.electors[e].campaign == Idle && s.electors[e].stopper == NotStopped
    ensures var r := Exec(s, [StopBegin(e), StopCheck(e), StopStepDown(e)] + [Unfence(e), StopRelease(e)]);
            && r.Some? && OnlyElectorAndLock(s, r.value, e)
            && r.value.lock.owner == "" && r.value.lock.lastRenew == s.lock.lastRenew && r.value.terms == s.terms + [""]
            && r.value.electors[e] == s.electors[e].(role := Standby, stopper := StopDone)
  {
    var a, b := [StopBegin(e), StopCheck(e), StopStepDown(e)], [Unfence(e), StopRelease(e)];
    var el := s.electors[e];
    var s1, s2 := Put(s, e, el.(stopper := StopChecking)), Put(s, e, el.(stopper := StopStepping));
    var s3, s4 := Put(s, e, el.(stopper := StopFencing, role := Fenced)), Put(s, e, el.(stopper := StopReleasing, role := Standby));
    assert Next(s, StopBegin(e)) == Some(s1);
    assert s1.electors[e := el.(stopper := StopStepping)] == s2.electors;
    assert Next(s1, StopCheck(e)) == Some(s2);
    assert s2.electors[e := el.(stopper := StopFencing, role := Fenced)] == s3.electors;
    assert Next(s2, StopStepDown(e)) == Some(s3);
    Runs.ExecThree(Next, s, StopBegin(e), StopCheck(e), StopStepDown(e));
    StopEnds(s3, e);
    assert s.lock.owner == e && s3.lock == s.lock;
    Runs.ExecAppend(Next, s, a, b);
  }

  lemma {:induction false} StopEnds(s: System, e: string)
    requires e in s.electors && s.electors[e].role == Fenced && s.electors[e].stopper == StopFencing
    requires s.electors[e].campaign == Idle && s.lock.owner == e && s.lock.lockID == s.electors[e].lockID && e != ""
    ensures var r := Exec(s, [Unfence(e), StopRelease(e)]);
            && r.Some? && OnlyElectorAndLock(s, r.value, e)
            && r.value.lock.owner == "" && r.value.lock.lastRenew == s.lock.lastRenew && r.value.terms == s.terms + [""]
            && r.value.electors[e] == s.electors[e].(role := Standby, stopper := StopDone)
  {
    Runs.ExecTwo(Next, s, Unfence(e), StopRelease(e));
  }

  /** Only the owner's release, under its own lock ID, frees the lock. */
  lemma {:induction false} ForeignReleaseIsIgnored(s: System, e: string)
    requires Releasing(s, e) && (s.lock.owner != e || s.lock.lockID != s.electors[e].lockID)
    ensures var r := Next(s, StopRelease(e)); r.Some? && r.value.lock == s.lock && r.value.terms == s.terms
  {
  }
}
