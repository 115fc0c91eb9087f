/**
 Worker-side exclusion, internal/runtime/container_ops.go: RunContainer and StopContainer
 under the keyed lock.  Every tracker access and every engine call is one step, any number
 of requests run at once, and containers may exit on their own at any moment.
 */
module ContainerOps {
  import opened Wrappers
  import opened KeyedLock
  import Runs

  datatype InstanceState = Starting | Running | Stopping | Stopped | Failed

  /** The tracker's record of an instance; `container == ""` when none was created. */
  datatype Record = Record(state: InstanceState, container: string)

  /** A container of the engine, labelled with the instance it was created for. */
  datatype Container = Container(instance: string, running: bool)

  /** What a request does next; the record a Stop works on is its private copy. */
  datatype Work =
    | RunLookup | RunVerify | RunReject | RunMarkStarting | RunCreate | RunCreateFailed
    | RunStart(id: string) | RunStartFailed(id: string) | RunMarkRunning(id: string)
    | StopLookup | StopMarkStopping(rec: Record) | StopEngine(rec: Record)
    | StopEngineFailed(rec: Record) | StopMarkStopped(rec: Record)
    | Finished

  datatype Host = Host(
    locks: Locks,
    work: map<Thread, Work>,
    records: map<string, Record>,
    engine: map<string, Container>)

  /**
   `ok` is the outcome of the verifier or engine call the step makes, if it makes one, and
   `newID` the identifier the engine gives a new container.
   */
  datatype Step =
    | Begin(t: Thread, instance: string, run: bool)
    | Acquire(t: Thread)
    | Do(t: Thread, ok: bool, newID: string)
    | Unlock(t: Thread)
    | Leave(t: Thread)
    | Exit(container: string)

  const EMPTY_HOST := Host(EMPTY, map[], map[], map[])

  function Lift(h: Host, r: Option<Locks>): Option<Host> {
    if r.None? then None else Some(h.(locks := r.value))
  }

  function Goto(h: Host, t: Thread, w: Work): Host {
    h.(work := h.work[t := w])
  }

  function SetRecord(h: Host, key: string, rec: Record): Host {
    h.(records := h.records[key := rec])
  }

  function SetRunning(h: Host, id: string, running: bool): Host {
    if id in h.engine then h.(engine := h.engine[id := h.engine[id].(running := running)]) else h
  }

  /** The next action of thread `t`, which holds the lock of instance `key`. */
  function Act(h: Host, t: Thread, key: string, w: Work, ok: bool, newID: string): Option<Host> {
    match w
    case RunLookup =>
      if key in h.records && (h.records[key].state == Running || h.records[key].state == Starting)
      then Some(Goto(h, t, Finished)) else Some(Goto(h, t, RunVerify))
    case RunVerify => Some(Goto(h, t, if ok then RunMarkStarting else RunReject))
    case RunReject => Some(Goto(SetRecord(h, key, Record(Failed, "")), t, Finished))
    case RunMarkStarting => Some(Goto(SetRecord(h, key, Record(Starting, "")), t, RunCreate))
    case RunCreate =>
      if !ok then Some(Goto(h, t, RunCreateFailed))
      else if newID in h.engine || newID == "" then None
      else Some(Goto(h.(engine := h.engine[newID := Container(key, false)]), t, RunStart(newID)))
    case RunCreateFailed => Some(Goto(SetRecord(h, key, Record(Failed, "")), t, Finished))
    case RunStart(id) =>
      if ok then Some(Goto(SetRunning(h, id, true), t, RunMarkRunning(id))) else Some(Goto(h, t, RunStartFailed(id)))
    case RunStartFailed(id) => Some(Goto(SetRecord(h, key, Record(Failed, id)), t, Finished))
    case RunMarkRunning(id) => Some(Goto(SetRecord(h, key, Record(Running, id)), t, Finished))
    case StopLookup =>
      if key in h.records && h.records[key].state != Stopped
      then Some(Goto(h, t, StopMarkStopping(h.records[key]))) else Some(Goto(h, t, Finished))
    case StopMarkStopping(rec) =>
      Some(Goto(SetRecord(h, key, rec.(state := Stopping)), t, StopEngine(rec.(state := Stopping))))
    case StopEngine(rec) =>
      if rec.container == "" then Some(Goto(h, t, StopMarkStopped(rec)))
      else if ok then Some(Goto(SetRunning(h, rec.container, false), t, StopMarkStopped(rec)))
      else Some(Goto(h, t, StopEngineFailed(rec)))
    case StopEngineFailed(rec) => Some(Goto(SetRecord(h, key, rec), t, Finished))
    case StopMarkStopped(rec) => Some(Goto(SetRecord(h, key, rec.(state := Stopped)), t, Finished))
    case Finished => None
  }

  function Next(h: Host, step: Step): Option<Host> {
    match step
    case Begin(t, instance, run) =>
      if instance == "" then None
      else
        var r := KeyedLock.Next(h.locks, KeyedLock.Step.Enter(t, instance));
        if r.None? then None
        else Some(h.(locks := r.value, work := h.work[t := if run then RunLookup else StopLookup]))
    case Acquire(t) => Lift(h, KeyedLock.Next(h.locks, KeyedLock.Step.Acquire(t)))
    case Do(t, ok, newID) =>
      if t in h.locks.threads && h.locks.threads[t].Inside? && t in h.work
      then Act(h, t, h.locks.threads[t].key, h.work[t], ok, newID) else None
    case Unlock(t) =>
      if t in h.work && h.work[t] == Finished
      then Lift(h, KeyedLock.Next(h.locks, KeyedLock.Step.Unlock(t))) else None
    case Leave(t) => Lift(h, KeyedLock.Next(h.locks, KeyedLock.Step.Leave(t)))
    case Exit(id) => Some(SetRunning(h, id, false))
  }

  function Exec(h: Host, steps: seq<Step>): Option<Host> {
    Runs.Exec(Next, h, steps)
  }

  // ----- discipline

  /** An engine stop that fails must not leave its instance's container running. */
  predicate StopsTakeEffect(h: Host, step: Step) {
    step.Do? && step.t in h.work && step.t in h.locks.threads && h.work[step.t].StopEngine? && !step.ok ==>
      !RunsFor(h, h.work[step.t].rec.container, h.locks.threads[step.t].key)
  }

  predicate RunsFor(h: Host, id: string, key: string) {
    IsRunning(h, id) && h.engine[id].instance == key
  }

  predicate IsRunning(h: Host, id: string) {
    id in h.engine && h.engine[id].running
  }

  ghost predicate Disciplined(h: Host, steps: seq<Step>)
    decreases |steps|
  {
    steps == [] ||
    (StopsTakeEffect(h, steps[0]) &&
     (Next(h, steps[0]).Some? ==> Disciplined(Next(h, steps[0]).value, steps[1..])))
  }

  // ----- what is to be shown

  ghost predicate OneContainerPerInstance(h: Host) {
    forall a, b :: IsRunning(h, a) && IsRunning(h, b) && h.engine[a].instance == h.engine[b].instance ==> a == b
  }

  /** A running container is the one its instance's record names, or the one a Run is just about to record. */
  ghost predicate RecordNamesContainer(h: Host) {
    forall id :: IsRunning(h, id) ==>
      var key := h.engine[id].instance;
      (key in h.records && h.records[key].container == id)
      || exists t :: BusyOn(h, t, key) && h.work[t] == RunMarkRunning(id)
  }

  predicate BusyOn(h: Host, t: Thread, key: string) {
    t in h.work && t in h.locks.threads && h.locks.threads[t].Inside? && h.locks.threads[t].key == key
  }

  // ----- invariant, one instance at a time

  /** Every running container of `key` is `id`. */
  ghost predicate Only(h: Host, key: string, id: string) {
    forall c :: IsRunning(h, c) && h.engine[c].instance == key ==> c == id
  }

  ghost predicate NoneRuns(h: Host, key: string) {
    forall c :: IsRunning(h, c) ==> h.engine[c].instance != key
  }

  /** Between requests: the record tells which container may run. */
  ghost predicate AtRest(h: Host, key: string) {
    if key !in h.records then NoneRuns(h, key)
    else match h.records[key].state
      case Running => Only(h, key, h.records[key].container)
      case Failed => NoneRuns(h, key)
      case Stopped => NoneRuns(h, key)
      case Stopping => NoneRuns(h, key)
      case Starting => false
  }

  /** While a request is under way: what its program counter says about the instance. */
  ghost predicate Midway(h: Host, key: string, w: Work) {
    match w
    case RunLookup => AtRest(h, key)
    case StopLookup => AtRest(h, key)
    case Finished => AtRest(h, key)
    case RunStart(id) => NoneRuns(h, key) && id in h.engine && h.engine[id].instance == key
    case RunMarkRunning(id) => Only(h, key, id)
    case StopMarkStopping(rec) => Only(h, key, rec.container) && key in h.records && h.records[key].container == rec.container
    case StopEngine(rec) => Only(h, key, rec.container) && key in h.records && h.records[key].container == rec.container && rec.state == Stopping
    case StopEngineFailed(rec) => NoneRuns(h, key) && rec.state == Stopping
    case _ => NoneRuns(h, key)
  }

  ghost predicate KeyInv(h: Host, key: string) {
    && (forall t :: BusyOn(h, t, key) ==> Midway(h, key, h.work[t]))
    && ((forall t :: !BusyOn(h, t, key)) ==> AtRest(h, key))
  }

  /** Threads that are not inside have either done nothing yet or finished. */
  ghost predicate WorkMatchesPlace(h: Host) {
    forall t :: t in h.locks.threads ==>
      t in h.work && (h.locks.threads[t].Waiting? ==> h.work[t] == RunLookup || h.work[t] == StopLookup)
  }

  ghost predicate HostInv(h: Host) {
    && Inv(h.locks)
    && WorkMatchesPlace(h)
    && "" !in h.engine
    && AllKeysInv(h)
  }

  ghost predicate AllKeysInv(h: Host) {
    forall key :: KeyInv(h, key)
  }

  // ----- preservation

  lemma {:induction false} OnlyOneBusy(h: Host, t: Thread, u: Thread, key: string)
    requires Inv(h.locks) && BusyOn(h, t, key) && BusyOn(h, u, key)
    ensures t == u
  {
    assert h.locks.threads[t].obj == h.locks.threads[u].obj;
  }

  /** An action keeps what the program counter promises about its own instance. */
  lemma {:induction false} ActKeepsOwnKey(h: Host, t: Thread, key: string, w: Work, ok: bool, newID: string)
    requires Midway(h, key, w) && "" !in h.engine && Act(h, t, key, w, ok, newID).Some?
    requires w.StopEngine? && !ok ==> !RunsFor(h, w.rec.container, key)
    ensures var r := Act(h, t, key, w, ok, newID).value;
            "" !in r.engine && Midway(r, key, r.work[t])
  {
  }

  /** Two hosts agree about an instance, except that containers of it may have exited. */
  ghost predicate SameFor(h: Host, r: Host, key: string) {
    && (forall c :: c in h.engine && h.engine[c].instance == key ==> c in r.engine && r.engine[c].instance == key)
    && (forall c :: IsRunning(r, c) && r.engine[c].instance == key ==> IsRunning(h, c) && h.engine[c].instance == key)
    && (key in r.records <==> key in h.records)
    && (key in h.records ==> r.records[key] == h.records[key])
  }

  lemma {:induction false} ActLeavesOtherKeysAlone(h: Host, t: Thread, key: string, w: Work, ok: bool,
                                                   newID: string, other: string)
    requires Midway(h, key, w) && Act(h, t, key, w, ok, newID).Some? && other != key
    ensures SameFor(h, Act(h, t, key, w, ok, newID).value, other)
  {
  }

  lemma {:induction false} MidwayCarriesOver(h: Host, r: Host, key: string, w: Work)
    requires Midway(h, key, w) && SameFor(h, r, key)
    ensures Midway(r, key, w)
  {
  }

  /** If nothing changes for `key` and the same threads are busy with it at the same point, its invariant stays. */
  lemma {:induction false} KeyInvCarriesOver(h: Host, r: Host, key: string)
    requires KeyInv(h, key) && SameFor(h, r, key)
    requires forall t :: BusyOn(r, t, key) <==> BusyOn(h, t, key)
    requires forall t :: BusyOn(h, t, key) && BusyOn(r, t, key) ==> r.work[t] == h.work[t]
    ensures KeyInv(r, key)
  {
    forall t | BusyOn(r, t, key) ensures Midway(r, key, r.work[t]) {
      MidwayCarriesOver(h, r, key, h.work[t]);
    }
    if forall t :: !BusyOn(h, t, key) {
      MidwayCarriesOver(h, r, key, Finished);
    }
  }

  lemma {:induction false} ActFrame(h: Host, t: Thread, key: string, w: Work, ok: bool, newID: string)
    requires Act(h, t, key, w, ok, newID).Some?
    ensures var r := Act(h, t, key, w, ok, newID).value;
            r.locks == h.locks && t in r.work && r.work == h.work[t := r.work[t]]
  {
  }

  lemma {:induction false} ActionKeepsKey(h: Host, r: Host, t: Thread, key: string, k: string)
    requires BusyOn(h, t, key) && KeyInv(h, k)
    requires r.locks == h.locks && t in r.work && r.work == h.work[t := r.work[t]]
    requires Midway(r, key, r.work[t])
    requires k != key ==> SameFor(h, r, k)
    requires forall u :: BusyOn(h, u, key) ==> u == t
    ensures KeyInv(r, k)
  {
    assert forall u :: BusyOn(r, u, k) <==> BusyOn(h, u, k);
    if k == key {
      assert BusyOn(r, t, key);
    } else {
      KeyInvCarriesOver(h, r, k);
    }
  }

  lemma {:induction false} DoKeepsAllKeys(h: Host, r: Host, t: Thread, key: string, ok: bool, newID: string)
    requires AllKeysInv(h) && BusyOn(h, t, key) && Midway(h, key, h.work[t])
    requires Act(h, t, key, h.work[t], ok, newID) == Some(r)
    requires Midway(r, key, r.work[t])
    requires forall u :: BusyOn(h, u, key) ==> u == t
    ensures AllKeysInv(r)
  {
    ActFrame(h, t, key, h.work[t], ok, newID);
    forall k ensures KeyInv(r, k) {
      assert KeyInv(h, k);
      if k != key {
        ActLeavesOtherKeysAlone(h, t, key, h.work[t], ok, newID, k);
      }
      ActionKeepsKey(h, r, t, key, k);
    }
  }

  lemma {:induction false} DoKeepsInv(h: Host, t: Thread, ok: bool, newID: string)
    requires HostInv(h) && StopsTakeEffect(h, Do(t, ok, newID)) && Next(h, Do(t, ok, newID)).Some?
    ensures HostInv(Next(h, Do(t, ok, newID)).value)
  {
    var r := Next(h, Do(t, ok, newID)).value;
    var key := h.locks.threads[t].key;
    forall u | BusyOn(h, u, key) ensures u == t {
      OnlyOneBusy(h, t, u, key);
    }
    assert KeyInv(h, key);
    assert Midway(h, key, h.work[t]);
    ActKeepsOwnKey(h, t, key, h.work[t], ok, newID);
    ActFrame(h, t, key, h.work[t], ok, newID);
    DoKeepsAllKeys(h, r, t, key, ok, newID);
  }

  /** What a step of the keyed lock can do to the threads: move one of them. */
  ghost predicate OnlyMoves(h: Host, r: Host, t: Thread) {
    && r.engine == h.engine && r.records == h.records
    && (forall u :: u != t ==> (u in r.locks.threads <==> u in h.locks.threads) && (u in r.work <==> u in h.work))
    && (forall u :: u != t && u in h.locks.threads ==> r.locks.threads[u] == h.locks.threads[u])
    && (forall u :: u != t && u in h.work ==> r.work[u] == h.work[u])
  }

  /** Moving a thread outside the critical section concerns no instance. */
  lemma {:induction false} OuterMoveKeepsKey(h: Host, r: Host, t: Thread, k: string)
    requires KeyInv(h, k) && OnlyMoves(h, r, t)
    requires t in h.locks.threads ==> !h.locks.threads[t].Inside?
    requires t in r.locks.threads ==> !r.locks.threads[t].Inside?
    ensures KeyInv(r, k)
  {
    assert forall u :: BusyOn(r, u, k) <==> BusyOn(h, u, k);
    KeyInvCarriesOver(h, r, k);
  }

  /** Moving into the free critical section of `key`. */
  lemma {:induction false} EntryKeepsKey(h: Host, r: Host, t: Thread, key: string, k: string)
    requires KeyInv(h, k) && OnlyMoves(h, r, t)
    requires BusyOn(r, t, key) && (r.work[t] == RunLookup || r.work[t] == StopLookup)
    requires t in h.locks.threads && !h.locks.threads[t].Inside?
    requires forall u :: !BusyOn(h, u, key)
    ensures KeyInv(r, k)
  {
    if k == key {
      MidwayCarriesOver(h, r, key, r.work[t]);
      forall u | BusyOn(r, u, key) ensures u == t {}
    } else {
      assert forall u :: BusyOn(r, u, k) <==> BusyOn(h, u, k);
      KeyInvCarriesOver(h, r, k);
    }
  }

  /** Moving out of the critical section of `key` with nothing left to do. */
  lemma {:induction false} ExitKeepsKey(h: Host, r: Host, t: Thread, key: string, k: string)
    requires KeyInv(h, k) && OnlyMoves(h, r, t)
    requires BusyOn(h, t, key) && h.work[t] == Finished
    requires t in r.locks.threads ==> !r.locks.threads[t].Inside?
    requires forall u :: BusyOn(h, u, key) ==> u == t
    ensures KeyInv(r, k)
  {
    if k == key {
      MidwayCarriesOver(h, r, key, Finished);
      forall u ensures !BusyOn(r, u, key) {}
    } else {
      assert forall u :: BusyOn(r, u, k) <==> BusyOn(h, u, k);
      KeyInvCarriesOver(h, r, k);
    }
  }

  lemma {:induction false} BeginKeepsInv(h: Host, t: Thread, instance: string, run: bool)
    requires HostInv(h) && Next(h, Begin(t, instance, run)).Some?
    ensures HostInv(Next(h, Begin(t, instance, run)).value)
  {
    var r := Next(h, Begin(t, instance, run)).value;
    KeyedLock.StepKeepsInv(h.locks, KeyedLock.Step.Enter(t, instance));
    assert OnlyMoves(h, r, t);
    forall k ensures KeyInv(r, k) {
      assert KeyInv(h, k);
      OuterMoveKeepsKey(h, r, t, k);
    }
  }

  lemma {:induction false} LeaveOnlyMoves(h: Host, t: Thread)
    requires Inv(h.locks) && WorkMatchesPlace(h) && Next(h, Step.Leave(t)).Some?
    ensures var r := Next(h, Step.Leave(t)).value; Inv(r.locks) && WorkMatchesPlace(r) && OnlyMoves(h, r, t)
  {
    KeyedLock.StepKeepsInv(h.locks, KeyedLock.Step.Leave(t));
  }

  lemma {:induction false} LeaveKeepsHostInv(h: Host, t: Thread)
    requires HostInv(h) && Next(h, Step.Leave(t)).Some?
    ensures HostInv(Next(h, Step.Leave(t)).value)
  {
    var r := Next(h, Step.Leave(t)).value;
    LeaveOnlyMoves(h, t);
    forall k ensures KeyInv(r, k) {
      assert KeyInv(h, k);
      OuterMoveKeepsKey(h, r, t, k);
    }
  }

  lemma {:induction false} ContainerExitKeepsInv(h: Host, id: string)
    requires HostInv(h)
    ensures HostInv(SetRunning(h, id, false))
  {
    var r := SetRunning(h, id, false);
    forall k ensures KeyInv(r, k) {
      assert KeyInv(h, k);
      assert forall u :: BusyOn(r, u, k) <==> BusyOn(h, u, k);
      KeyInvCarriesOver(h, r, k);
    }
  }

  /** The mutex of a thread's key is free exactly when nobody is busy with that key. */
  lemma {:induction false} FreeMeansNobodyBusy(h: Host, t: Thread, u: Thread)
    requires Inv(h.locks) && t in h.locks.threads && h.locks.threads[t].obj in h.locks.objs
    requires h.locks.objs[h.locks.threads[t].obj].holder == None
    ensures !BusyOn(h, u, h.locks.threads[t].key)
  {
  }

  lemma {:induction false} AcquireKeepsInv(h: Host, t: Thread)
    requires HostInv(h) && Next(h, Step.Acquire(t)).Some?
    ensures HostInv(Next(h, Step.Acquire(t)).value)
  {
    var r := Next(h, Step.Acquire(t)).value;
    KeyedLock.StepKeepsInv(h.locks, KeyedLock.Step.Acquire(t));
    var key := h.locks.threads[t].key;
    forall u ensures !BusyOn(h, u, key) {
      FreeMeansNobodyBusy(h, t, u);
    }
    assert OnlyMoves(h, r, t);
    forall k ensures KeyInv(r, k) {
      assert KeyInv(h, k);
      EntryKeepsKey(h, r, t, key, k);
    }
  }

  lemma {:induction false} UnlockKeepsInv(h: Host, t: Thread)
    requires HostInv(h) && Next(h, Step.Unlock(t)).Some?
    ensures HostInv(Next(h, Step.Unlock(t)).value)
  {
    var r := Next(h, Step.Unlock(t)).value;
    KeyedLock.StepKeepsInv(h.locks, KeyedLock.Step.Unlock(t));
    var key := h.locks.threads[t].key;
    forall u | BusyOn(h, u, key) ensures u == t {
      OnlyOneBusy(h, t, u, key);
    }
    assert OnlyMoves(h, r, t);
    forall k ensures KeyInv(r, k) {
      assert KeyInv(h, k);
      ExitKeepsKey(h, r, t, key, k);
    }
  }

  lemma {:induction false} StepKeepsHostInv(h: Host, step: Step)
    requires HostInv(h) && StopsTakeEffect(h, step) && Next(h, step).Some?
    ensures HostInv(Next(h, step).value)
  {
    match step
    case Do(t, ok, newID) => DoKeepsInv(h, t, ok, newID);
    case Acquire(t) => AcquireKeepsInv(h, t);
    case Unlock(t) => UnlockKeepsInv(h, t);
    case Begin(t, instance, run) => BeginKeepsInv(h, t, instance, run);
    case Leave(t) => LeaveKeepsHostInv(h, t);
    case Exit(id) => ContainerExitKeepsInv(h, id);
  }

  lemma {:induction false} RunKeepsHostInv(h: Host, steps: seq<Step>)
    requires HostInv(h) && Disciplined(h, steps) && Exec(h, steps).Some?
    ensures HostInv(Exec(h, steps).value)
    decreases |steps|
  {
    if steps != [] {
      StepKeepsHostInv(h, steps[0]);
      RunKeepsHostInv(Next(h, steps[0]).value, steps[1..]);
    }
  }

  /**
   Over every interleaving of Run and Stop requests, with create, start and verification
   failures and spontaneous exits: at most one container of an instance runs, and the
   tracker's record names it.
   */
  lemma {:induction false} OneContainerAlways(steps: seq<Step>)
    requires Disciplined(EMPTY_HOST, steps) && Exec(EMPTY_HOST, steps).Some?
    ensures var h := Exec(EMPTY_HOST, steps).value;
            OneContainerPerInstance(h) && RecordNamesContainer(h)
  {
    RunKeepsHostInv(EMPTY_HOST, steps);
    var h := Exec(EMPTY_HOST, steps).value;
    forall a, b | IsRunning(h, a) && IsRunning(h, b) && h.engine[a].instance == h.engine[b].instance ensures a == b {
      RunningMeansOnly(h, a);
      RunningMeansOnly(h, b);
    }
    forall id | IsRunning(h, id)
      ensures var key := h.engine[id].instance;
              (key in h.records && h.records[key].container == id)
              || exists t :: BusyOn(h, t, key) && h.work[t] == RunMarkRunning(id)
    {
      RunningMeansOnly(h, id);
    }
  }

  lemma {:induction false} RunningMeansOnly(h: Host, id: string)
    requires HostInv(h) && IsRunning(h, id)
    ensures Only(h, h.engine[id].instance, id)
    ensures var key := h.engine[id].instance;
            (key in h.records && h.records[key].container == id)
            || exists t :: BusyOn(h, t, key) && h.work[t] == RunMarkRunning(id)
  {
    var key := h.engine[id].instance;
    assert KeyInv(h, key);
    if t: Thread :| BusyOn(h, t, key) {
      assert Midway(h, key, h.work[t]);
    } else {
      assert AtRest(h, key);
    }
  }

  // ----- the discipline is needed

  function GiveUp(t: Thread): seq<Step> {
    [Do(t, false, ""), Do(t, true, "")] + [Step.Unlock(t)]
  }

  function Arrive(u: Thread, key: string): seq<Step> {
    [Begin(u, key, true), Step.Acquire(u)]
  }

  function StartOne(u: Thread, id: string): seq<Step> {
    [Do(u, true, id), Do(u, true, id)] + [Do(u, true, id), Do(u, true, id)] + [Do(u, true, id)]
  }

  /** A Stop whose engine call fails records the failure, keeps the state STOPPING and leaves. */
  lemma {:induction false} FailedStopLeaves(h: Host, t: Thread, key: string)
    requires BusyOn(h, t, key) && h.work[t].StopEngine? && h.work[t].rec.container != ""
    requires h.work[t].rec.state == Stopping
    requires KeyedLock.Next(h.locks, KeyedLock.Step.Unlock(t)).Some?
    ensures var r := Exec(h, GiveUp(t));
            r.Some? && r.value.engine == h.engine && key in r.value.records && r.value.records[key].state == Stopping
            && r.value.locks == KeyedLock.Next(h.locks, KeyedLock.Step.Unlock(t)).value
  {
    var rec := h.work[t].rec;
    var a := Next(h, Do(t, false, "")).value;
    assert a == Goto(h, t, StopEngineFailed(rec));
    var b := Next(a, Do(t, true, "")).value;
    assert b == Goto(SetRecord(a, key, rec), t, Finished);
    Runs.ExecTwo(Next, h, Do(t, false, ""), Do(t, true, ""));
    Runs.ExecAppend(Next, h, [Do(t, false, ""), Do(t, true, "")], [Step.Unlock(t)]);
    Runs.ExecOne(Next, b, Step.Unlock(t));
  }

  /** Once the key is free, a new Run request gets in. */
  lemma {:induction false} NewcomerGetsIn(h: Host, u: Thread, key: string)
    requires Inv(h.locks) && u !in h.locks.threads && key != ""
    requires key in h.locks.table && h.locks.table[key] in h.locks.objs
    requires h.locks.objs[h.locks.table[key]].holder == None
    ensures var r := Exec(h, Arrive(u, key));
            r.Some? && r.value.engine == h.engine && r.value.records == h.records
            && BusyOn(r.value, u, key) && r.value.work[u] == RunLookup
  {
    var a := Next(h, Begin(u, key, true)).value;
    var o := h.locks.table[key];
    assert a.locks.threads[u] == Waiting(key, o) && a.locks.objs[o].holder == None;
    Runs.ExecTwo(Next, h, Begin(u, key, true), Step.Acquire(u));
  }

  /** A Run that finds the instance STOPPING starts a container of its own. */
  lemma {:induction false} RunStartsAnother(h: Host, u: Thread, key: string, id: string)
    requires BusyOn(h, u, key) && h.work[u] == RunLookup
    requires key in h.records && h.records[key].state == Stopping
    requires id != "" && id !in h.engine
    ensures var r := Exec(h, StartOne(u, id));
            r.Some? && r.value.engine == h.engine[id := Container(key, true)]
  {
    var d := Do(u, true, id);
    var a := Goto(h, u, RunVerify);
    var b := Goto(h, u, RunMarkStarting);
    var c := Goto(SetRecord(h, key, Record(Starting, "")), u, RunCreate);
    assert Next(h, d) == Some(a);
    assert Next(a, d) == Some(Goto(a, u, RunMarkStarting)) && Goto(a, u, RunMarkStarting) == b;
    Runs.ExecTwo(Next, h, d, d);
    var c1 := Next(b, d).value;
    assert c1 == c;
    var e := Next(c, d).value;
    assert e.engine == h.engine[id := Container(key, false)] && e.work[u] == RunStart(id);
    Runs.ExecTwo(Next, b, d, d);
    Runs.ExecOne(Next, e, d);
    assert Next(e, d).value.engine == h.engine[id := Container(key, true)];
    Runs.ExecAppend(Next, h, [d, d], [d, d]);
    Runs.ExecAppend(Next, h, [d, d] + [d, d], [d]);
  }

  /** Two different containers of the instance are running. */
  ghost predicate TwoRun(r: Option<Host>, a: string, b: string, key: string) {
    r.Some? && a != b && RunsFor(r.value, a, key) && RunsFor(r.value, b, key)
  }

  /** A Stop whose engine call fails, then a new Run request. */
  function FailedStopThenRun(t: Thread, u: Thread, key: string, id: string): seq<Step> {
    GiveUp(t) + Arrive(u, key) + StartOne(u, id)
  }

  /** After them the engine has the new container besides what it had. */
  lemma {:induction false} RunAfterFailedStop(h: Host, t: Thread, u: Thread, key: string, id: string)
    requires HostInv(h) && BusyOn(h, t, key) && key != "" && h.work[t].StopEngine? && h.work[t].rec.container != ""
    requires u !in h.locks.threads && u != t && id != "" && id !in h.engine
    ensures var r := Exec(h, FailedStopThenRun(t, u, key, id)); r.Some? && r.value.engine == h.engine[id := Container(key, true)]
  {
    assert KeyInv(h, key) && Midway(h, key, h.work[t]);
    SomeThreadCanMove(h.locks, t);
    FailedStopLeaves(h, t, key);
    var a := Exec(h, GiveUp(t)).value;
    KeyedLock.StepKeepsInv(h.locks, KeyedLock.Step.Unlock(t));
    assert a.locks.table == h.locks.table && a.locks.table[key] == h.locks.threads[t].obj;
    assert CountExact(a.locks, key);
    NewcomerGetsIn(a, u, key);
    var b := Exec(a, Arrive(u, key)).value;
    RunStartsAnother(b, u, key, id);
    Runs.ExecAppend(Next, h, GiveUp(t), Arrive(u, key));
    Runs.ExecAppend(Next, h, GiveUp(t) + Arrive(u, key), StartOne(u, id));
  }

  /**
   The discipline is exact: when an engine stop fails, one more Run request makes the instance
   have two running containers if and only if the container was running.  The record left
   behind says STOPPING, which a Run does not respect.
   */
  lemma {:induction false} FailedStopAllowsTwo(h: Host, t: Thread, u: Thread, key: string, id: string)
    requires HostInv(h) && BusyOn(h, t, key) && key != "" && h.work[t].StopEngine? && h.work[t].rec.container != ""
    requires u !in h.locks.threads && u != t && id != "" && id !in h.engine
    ensures TwoRun(Exec(h, FailedStopThenRun(t, u, key, id)), h.work[t].rec.container, id, key)
            <==> !StopsTakeEffect(h, Do(t, false, ""))
  {
    RunAfterFailedStop(h, t, u, key, id);
  }

  // ----- nothing runs unverified

  /** What an observer of the run notes: threads whose request has passed verification, and containers such a thread created. */
  datatype Watch = Watch(passed: set<Thread>, vouched: set<string>)

  const NOTHING_SEEN := Watch({}, {})

  function Observe(h: Host, w: Watch, step: Step): Watch {
    match step
    case Begin(t, _, _) => w.(passed := w.passed - {t})
    case Do(t, ok, newID) =>
      if t !in h.work then w
      else if h.work[t] == RunVerify then w.(passed := if ok then w.passed + {t} else w.passed - {t})
      else if h.work[t] == RunCreate && ok && t in w.passed then w.(vouched := w.vouched + {newID})
      else w
    case _ => w
  }

  function ObserveAll(h: Host, w: Watch, steps: seq<Step>): Watch
    decreases |steps|
  {
    if steps == [] || Next(h, steps[0]).None? then w
    else ObserveAll(Next(h, steps[0]).value, Observe(h, w, steps[0]), steps[1..])
  }

  /** Past verification: about to touch the engine, or having done so. */
  predicate PastVerify(k: Work) {
    k == RunMarkStarting || k == RunCreate || k == RunCreateFailed || k.RunStart? || k.RunStartFailed? || k.RunMarkRunning?
  }

  ghost predicate Vouched(h: Host, w: Watch) {
    && (forall t :: t in h.work && PastVerify(h.work[t]) ==> t in w.passed)
    && (forall id :: id in h.engine ==> id in w.vouched)
  }

  lemma {:induction false} DoKeepsVouched(h: Host, w: Watch, t: Thread, ok: bool, newID: string)
    requires Vouched(h, w) && Next(h, Do(t, ok, newID)).Some?
    ensures Vouched(Next(h, Do(t, ok, newID)).value, Observe(h, w, Do(t, ok, newID)))
  {
    var key := h.locks.threads[t].key;
    ActFrame(h, t, key, h.work[t], ok, newID);
  }

  lemma {:induction false} StepKeepsVouched(h: Host, w: Watch, step: Step)
    requires Vouched(h, w) && Next(h, step).Some?
    ensures Vouched(Next(h, step).value, Observe(h, w, step))
  {
    if step.Do? {
      DoKeepsVouched(h, w, step.t, step.ok, step.newID);
    }
  }

  lemma {:induction false} RunKeepsVouched(h: Host, w: Watch, steps: seq<Step>)
    requires Vouched(h, w) && Exec(h, steps).Some?
    ensures Vouched(Exec(h, steps).value, ObserveAll(h, w, steps))
    decreases |steps|
  {
    if steps != [] {
      StepKeepsVouched(h, w, steps[0]);
      RunKeepsVouched(Next(h, steps[0]).value, Observe(h, w, steps[0]), steps[1..]);
    }
  }

  /**
   Over every interleaving, with no discipline assumed: every container the engine has was
   created by a request whose own verification had succeeded.
   */
  lemma {:induction false} EveryContainerIsVerified(steps: seq<Step>)
    requires Exec(EMPTY_HOST, steps).Some?
    ensures forall id :: id in Exec(EMPTY_HOST, steps).value.engine ==> id in ObserveAll(EMPTY_HOST, NOTHING_SEEN, steps).vouched
  {
    RunKeepsVouched(EMPTY_HOST, NOTHING_SEEN, steps);
  }

  // ----- one request undisturbed, field by field

  /** Nothing changes but the record and the engine as given, and the request is done. */
  ghost predicate Leaves(r: Option<Host>, h: Host, t: Thread, records: map<string, Record>, engine: map<string, Container>) {
    r.Some? && r.value.locks == h.locks && r.value.records == records && r.value.engine == engine
    && t in r.value.work && r.value.work[t] == Finished
  }

  /** A Run of an instance that is up looks and leaves. */
  lemma {:induction false} RunOfUp(h: Host, t: Thread, key: string, newID: string)
    requires BusyOn(h, t, key) && h.work[t] == RunLookup
    requires key in h.records && (h.records[key].state == Running || h.records[key].state == Starting)
    ensures Leaves(Exec(h, [Do(t, true, newID)]), h, t, h.records, h.engine)
  {
    Runs.ExecOne(Next, h, Do(t, true, newID));
  }

  /** A Run that fails verification records the failure and leaves the engine alone. */
  lemma {:induction false} RunOfUnverified(h: Host, t: Thread, key: string, newID: string)
    requires BusyOn(h, t, key) && h.work[t] == RunLookup
    requires !(key in h.records && (h.records[key].state == Running || h.records[key].state == Starting))
    ensures Leaves(Exec(h, [Do(t, true, newID), Do(t, false, newID), Do(t, true, newID)]), h, t,
                   h.records[key := Record(Failed, "")], h.engine)
  {
    Runs.ExecThree(Next, h, Do(t, true, newID), Do(t, false, newID), Do(t, true, newID));
  }

  /** The state of a verified Run about to ask the engine. */
  lemma {:induction false} RunVerified(h: Host, t: Thread, key: string, newID: string)
    requires BusyOn(h, t, key) && h.work[t] == RunLookup
    requires !(key in h.records && (h.records[key].state == Running || h.records[key].state == Starting))
    ensures var r := Exec(h, [Do(t, true, newID), Do(t, true, newID), Do(t, true, newID)]);
            && r.Some? && r.value.locks == h.locks && r.value.engine == h.engine
            && r.value.records == h.records[key := Record(Starting, "")] && BusyOn(r.value, t, key) && r.value.work[t] == RunCreate
  {
    Runs.ExecThree(Next, h, Do(t, true, newID), Do(t, true, newID), Do(t, true, newID));
  }

  /** From there creation may be refused. */
  lemma {:induction false} CreateRefused(h: Host, t: Thread, key: string, newID: string)
    requires BusyOn(h, t, key) && h.work[t] == RunCreate
    ensures Leaves(Exec(h, [Do(t, false, newID), Do(t, true, newID)]), h, t, h.records[key := Record(Failed, "")], h.engine)
  {
    Runs.ExecTwo(Next, h, Do(t, false, newID), Do(t, true, newID));
  }

  /** Or the start may be refused. */
  lemma {:induction false} StartRefused(h: Host, t: Thread, key: string, newID: string)
    requires BusyOn(h, t, key) && h.work[t] == RunCreate && newID != "" && newID !in h.engine
    ensures Leaves(Exec(h, [Do(t, true, newID), Do(t, false, newID), Do(t, true, newID)]), h, t,
                   h.records[key := Record(Failed, newID)], h.engine[newID := Container(key, false)])
  {
    var a := Next(h, Do(t, true, newID)).value;
    assert a.engine == h.engine[newID := Container(key, false)] && a.work[t] == RunStart(newID) && a.records == h.records;
    Runs.ExecThree(Next, h, Do(t, true, newID), Do(t, false, newID), Do(t, true, newID));
  }

  /** Or all goes well. */
  lemma {:induction false} RunFromCreate(h: Host, t: Thread, key: string, newID: string)
    requires BusyOn(h, t, key) && h.work[t] == RunCreate && newID != "" && newID !in h.engine
    ensures Leaves(Exec(h, [Do(t, true, newID), Do(t, true, newID), Do(t, true, newID)]), h, t,
                   h.records[key := Record(Running, newID)], h.engine[newID := Container(key, true)])
  {
    var yes := Do(t, true, newID);
    var a := Next(h, yes).value;
    assert a.engine == h.engine[newID := Container(key, false)] && a.work[t] == RunStart(newID) && a.records == h.records;
    var b := Next(a, yes).value;
    assert b.engine == h.engine[newID := Container(key, true)];
    Runs.ExecThree(Next, h, yes, yes, yes);
  }

  /** A Stop of an instance that is not up to anything looks and leaves. */
  lemma {:induction false} StopOfIdle(h: Host, t: Thread, key: string)
    requires BusyOn(h, t, key) && h.work[t] == StopLookup
    requires key !in h.records || h.records[key].state == Stopped
    ensures Leaves(Exec(h, [Do(t, true, "")]), h, t, h.records, h.engine)
  {
    Runs.ExecOne(Next, h, Do(t, true, ""));
  }

  lemma {:induction false} StopMarked(h: Host, t: Thread, key: string)
    requires BusyOn(h, t, key) && h.work[t] == StopLookup && key in h.records && h.records[key].state != Stopped
    ensures var r, rec := Exec(h, [Do(t, true, ""), Do(t, true, "")]), Record(Stopping, h.records[key].container);
            && r.Some? && r.value.locks == h.locks && r.value.engine == h.engine && r.value.records == h.records[key := rec]
            && BusyOn(r.value, t, key) && r.value.work[t] == StopEngine(rec)
  {
    Runs.ExecTwo(Next, h, Do(t, true, ""), Do(t, true, ""));
  }

  lemma {:induction false} StopFromEngine(h: Host, t: Thread, key: string, id: string)
    requires BusyOn(h, t, key) && h.work[t] == StopEngine(Record(Stopping, id)) && id in h.engine && id != ""
    ensures Leaves(Exec(h, [Do(t, true, ""), Do(t, true, "")]), h, t,
                   h.records[key := Record(Stopped, id)], h.engine[id := Container(h.engine[id].instance, false)])
    ensures Leaves(Exec(h, [Do(t, false, ""), Do(t, true, "")]), h, t, h.records[key := Record(Stopping, id)], h.engine)
  {
    Runs.ExecTwo(Next, h, Do(t, true, ""), Do(t, true, ""));
    Runs.ExecTwo(Next, h, Do(t, false, ""), Do(t, true, ""));
  }

  /** Any other Stop, honoured or refused by the engine. */
  lemma {:induction false} StopOfOther(h: Host, t: Thread, key: string)
    requires BusyOn(h, t, key) && h.work[t] == StopLookup
    requires key in h.records && h.records[key].state != Stopped && h.records[key].container in h.engine
    requires h.records[key].container != ""
    ensures var id := h.records[key].container; var yes, no := Do(t, true, ""), Do(t, false, "");
            && Leaves(Exec(h, [yes, yes] + [yes, yes]), h, t,
                      h.records[key := Record(Stopped, id)], h.engine[id := Container(h.engine[id].instance, false)])
            && Leaves(Exec(h, [yes, yes] + [no, yes]), h, t, h.records[key := Record(Stopping, id)], h.engine)
  {
    var yes, no := Do(t, true, ""), Do(t, false, "");
    var id := h.records[key].container;
    StopMarked(h, t, key);
    var a := Exec(h, [yes, yes]).value;
    StopFromEngine(a, t, key, id);
    Runs.ExecAppend(Next, h, [yes, yes], [yes, yes]);
    Runs.ExecAppend(Next, h, [yes, yes], [no, yes]);
    assert a.records[key := Record(Stopped, id)] == h.records[key := Record(Stopped, id)];
    assert a.records[key := Record(Stopping, id)] == h.records[key := Record(Stopping, id)];
  }
}
