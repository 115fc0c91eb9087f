/**
 The mutable objects of internal/runtime: the tracker with its two maps, and the container
 operations run one at a time.  Modules KeyedLock and ContainerOps take the same code apart
 into its shared accesses and interleave it.
 */
module RuntimeObjects {
  import opened Wrappers
  import opened ContainerOps
  import KeyedLock

  class KeyedMutex {
    var refCount: int

    constructor ()
      ensures refCount == 0
    {
      refCount := 0;
    }
  }

  class InstanceTracker {
    var records: map<string, Record>
    var keyLocks: map<string, KeyedMutex>

    constructor ()
      ensures records == map[] && keyLocks == map[]
    {
      records, keyLocks := map[], map[];
    }

    /** The critical section that opens LockInstance: find or create the entry and count the caller. */
    method Reserve(instanceID: string) returns (kl: KeyedMutex)
      modifies this`keyLocks, if instanceID in keyLocks then {keyLocks[instanceID]} else {}
      ensures keyLocks == old(keyLocks)[instanceID := kl]
      ensures instanceID in old(keyLocks) ==> kl == old(keyLocks[instanceID]) && kl.refCount == old(keyLocks[instanceID].refCount) + 1
      ensures instanceID !in old(keyLocks) ==> fresh(kl) && kl.refCount == 1
    {
      if instanceID in keyLocks {
        kl := keyLocks[instanceID];
      } else {
        kl := new KeyedMutex();
        keyLocks := keyLocks[instanceID := kl];
      }
      kl.refCount := kl.refCount + 1;
    }

    /** The critical section that closes it: uncount, and drop the entry with the last caller. */
    method Unreserve(instanceID: string, kl: KeyedMutex)
      modifies this`keyLocks, kl
      ensures kl.refCount == old(kl.refCount) - 1
      ensures keyLocks == if kl.refCount == 0 then old(keyLocks) - {instanceID} else old(keyLocks)
    {
      kl.refCount := kl.refCount - 1;
      if kl.refCount == 0 {
        keyLocks := keyLocks - {instanceID};
      }
    }

    method Get(instanceID: string) returns (r: Option<Record>)
      ensures r == if instanceID in records then Some(records[instanceID]) else None
    {
      if instanceID in records {
        return Some(records[instanceID]);
      }
      return None;
    }

    method Set(instanceID: string, rec: Record)
      modifies this`records
      ensures records == old(records)[instanceID := rec]
    {
      records := records[instanceID := rec];
    }
  }

  datatype RunOutcome = NoInstance | Duplicate(container: string) | Rejected | CreateFailed
    | StartFailed(container: string) | Started(container: string)

  /** What a Run that is not a duplicate leaves behind. */
  function AfterRun(h: Host, key: string, out: RunOutcome): Host {
    match out
    case Started(id) => h.(records := h.records[key := Record(Running, id)], engine := h.engine[id := Container(key, true)])
    case StartFailed(id) => h.(records := h.records[key := Record(Failed, id)], engine := h.engine[id := Container(key, false)])
    case _ => h.(records := h.records[key := Record(Failed, "")])
  }

  ghost predicate AllAtRest(h: Host) {
    "" !in h.engine && forall key :: AtRest(h, key)
  }

  lemma {:induction false} RunEndsAtRest(h: Host, key: string, out: RunOutcome)
    requires AllAtRest(h) && !out.Duplicate? && !out.NoInstance?
    requires !(key in h.records && h.records[key].state == Running)
    requires out.Started? || out.StartFailed? ==> out.container !in h.engine && out.container != ""
    ensures AllAtRest(AfterRun(h, key, out))
  {
    assert AtRest(h, key);
    assert NoneRuns(h, key);
    forall k ensures AtRest(AfterRun(h, key, out), k) {
      assert AtRest(h, k);
      if k != key {
        MidwayCarriesOver(h, AfterRun(h, key, out), k, Finished);
      }
    }
  }

  predicate IsUp(h: Host, key: string) {
    key in h.records && (h.records[key].state == Running || h.records[key].state == Starting)
  }

  /** What comes of a Run request, given how verification, creation and start turn out. */
  function Outcome(h: Host, key: string, verified: bool, created: bool, started: bool, newID: string): RunOutcome {
    if key == "" then NoInstance
    else if IsUp(h, key) then Duplicate(h.records[key].container)
    else if !verified then Rejected
    else if !created then CreateFailed
    else if !started then StartFailed(newID) else Started(newID)
  }

  /** A Stop request has an engine call to make. */
  predicate NeedsEngine(h: Host, key: string) {
    key in h.records && h.records[key].state != Stopped && h.records[key].container != ""
  }

  /** What a Stop request leaves behind; `stopped` is the engine's answer if it is asked. */
  function AfterStop(h: Host, key: string, stopped: bool): Host {
    if key == "" || key !in h.records || h.records[key].state == Stopped then h
    else
      var rec := h.records[key].(state := Stopping);
      if NeedsEngine(h, key) && !stopped then h.(records := h.records[key := rec])
      else
        var halted := if NeedsEngine(h, key) then SetRunning(h, rec.container, false) else h;
        halted.(records := h.records[key := rec.(state := Stopped)])
  }

  /** Every other instance is at rest, and of this one only the recorded container may run. */
  ghost predicate OnlyRecordedRuns(h: Host, key: string) {
    && "" !in h.engine && (forall k :: k != key ==> AtRest(h, k))
    && (if key in h.records && h.records[key].state != Stopped then Only(h, key, h.records[key].container) else NoneRuns(h, key))
  }

  /** A stop that the engine honours leaves nothing running, even when an earlier one failed. */
  lemma {:induction false} StopEndsAtRest(h: Host, key: string)
    requires OnlyRecordedRuns(h, key) && key != ""
    ensures AllAtRest(AfterStop(h, key, true)) && NoneRuns(AfterStop(h, key, true), key)
  {
    var r := AfterStop(h, key, true);
    forall k ensures AtRest(r, k) {
      if k != key {
        assert AtRest(h, k);
        SetRunningElsewhere(h, r, key, k);
      }
    }
  }

  lemma {:induction false} SetRunningElsewhere(h: Host, r: Host, key: string, k: string)
    requires AtRest(h, k) && k != key && r == AfterStop(h, key, true)
    ensures AtRest(r, k)
  {
    MidwayCarriesOver(h, r, k, Finished);
  }

  /** A stop that the engine refuses keeps what a retry needs. */
  lemma {:induction false} FailedStopCanBeRetried(h: Host, key: string)
    requires OnlyRecordedRuns(h, key) && key != ""
    ensures OnlyRecordedRuns(AfterStop(h, key, false), key)
  {
    var r := AfterStop(h, key, false);
    if !NeedsEngine(h, key) {
      assert AfterStop(h, key, true) == r;
      StopEndsAtRest(h, key);
    } else {
      forall k | k != key ensures AtRest(r, k) {
        assert AtRest(h, k);
        MidwayCarriesOver(h, r, k, Finished);
      }
    }
  }

  lemma {:induction false} RestMeansOnlyRecorded(h: Host, key: string)
    requires AllAtRest(h)
    ensures OnlyRecordedRuns(h, key)
  {
    assert AtRest(h, key);
  }

  /** One worker's operations with nothing else going on; the arguments say how each engine call turns out. */
  class Operations {
    const tracker: InstanceTracker
    var engine: map<string, Container>

    constructor ()
      ensures fresh(tracker) && AllAtRest(View())
    {
      tracker := new InstanceTracker();
      engine := map[];
    }

    ghost function View(): Host
      reads this, tracker
    {
      Host(KeyedLock.EMPTY, map[], tracker.records, engine)
    }

    /** A Run of an instance that is up changes nothing; any other leaves what its outcome says. */
    method RunContainer(instanceID: string, verified: bool, created: bool, started: bool, newID: string)
      returns (out: RunOutcome)
      requires newID != "" && newID !in engine
      modifies this`engine, tracker`records
      ensures out == Outcome(old(View()), instanceID, verified, created, started, newID)
      ensures View() == if out.NoInstance? || out.Duplicate? then old(View()) else AfterRun(old(View()), instanceID, out)
      ensures old(AllAtRest(View())) ==> AllAtRest(View())
      // in the fields of the tracker and the engine:
      ensures var up := instanceID in old(tracker.records)
                        && (old(tracker.records[instanceID].state) == Running || old(tracker.records[instanceID].state) == Starting);
              var tried := instanceID != "" && !up;
              && (out.Started? <==> tried && verified && created && started)
              && (!tried ==> engine == old(engine) && tracker.records == old(tracker.records))
              && (tried && (!verified || !created) ==>
                    engine == old(engine) && tracker.records == old(tracker.records)[instanceID := Record(Failed, "")])
              && (tried && verified && created && !started ==>
                    && engine == old(engine)[newID := Container(instanceID, false)]
                    && tracker.records == old(tracker.records)[instanceID := Record(Failed, newID)])
              && (tried && verified && created && started ==>
                    && engine == old(engine)[newID := Container(instanceID, true)]
                    && tracker.records == old(tracker.records)[instanceID := Record(Running, newID)])
    {
      if instanceID == "" {
        return NoInstance;
      }
      var rec := tracker.Get(instanceID);
      if rec.Some? && (rec.value.state == Running || rec.value.state == Starting) {
        return Duplicate(rec.value.container);
      }
      if !verified {
        tracker.Set(instanceID, Record(Failed, ""));
        out := Rejected;
      } else {
        out := Launch(instanceID, created, started, newID);
      }
      if old(AllAtRest(View())) {
        RunEndsAtRest(old(View()), instanceID, out);
      }
    }

    /** The part of RunContainer that talks to the engine. */
    method Launch(instanceID: string, created: bool, started: bool, newID: string) returns (out: RunOutcome)
      modifies this`engine, tracker`records
      ensures out == (if !created then CreateFailed else if !started then StartFailed(newID) else Started(newID))
      ensures View() == AfterRun(old(View()), instanceID, out)
    {
      tracker.Set(instanceID, Record(Starting, ""));
      if !created {
        tracker.Set(instanceID, Record(Failed, ""));
        return CreateFailed;
      }
      engine := engine[newID := Container(instanceID, false)];
      if !started {
        tracker.Set(instanceID, Record(Failed, newID));
        return StartFailed(newID);
      }
      engine := engine[newID := Container(instanceID, true)];
      tracker.Set(instanceID, Record(Running, newID));
      return Started(newID);
    }

    /** From any state; a stop the engine honours ends with nothing of the instance running, a retried one too. */
    method StopContainer(instanceID: string, stopped: bool) returns (ok: bool)
      modifies this`engine, tracker`records
      ensures View() == AfterStop(old(View()), instanceID, stopped)
      ensures ok <==> instanceID != "" && (stopped || !NeedsEngine(old(View()), instanceID))
      ensures ok && old(OnlyRecordedRuns(View(), instanceID)) ==> AllAtRest(View()) && NoneRuns(View(), instanceID)
      ensures !ok && old(OnlyRecordedRuns(View(), instanceID)) ==> OnlyRecordedRuns(View(), instanceID)
      ensures old(AllAtRest(View())) ==> if ok then AllAtRest(View()) else OnlyRecordedRuns(View(), instanceID)
      // in the fields of the tracker and the engine:
      ensures instanceID == "" || instanceID !in old(tracker.records) || old(tracker.records[instanceID].state) == Stopped ==>
                engine == old(engine) && tracker.records == old(tracker.records) && (ok <==> instanceID != "")
      ensures instanceID != "" && instanceID in old(tracker.records) && old(tracker.records[instanceID].state) != Stopped ==>
                var rec := old(tracker.records[instanceID]);
                && (ok <==> stopped || rec.container == "")
                && tracker.records == old(tracker.records)[instanceID := Record(if ok then Stopped else Stopping, rec.container)]
                && (ok && rec.container in old(engine) && rec.container != "" ==>
                      engine == old(engine)[rec.container := Container(old(engine)[rec.container].instance, false)])
                && (!ok || rec.container !in old(engine) || rec.container == "" ==> engine == old(engine))
    {
      if AllAtRest(View()) {
        RestMeansOnlyRecorded(View(), instanceID);
      }
      ok := CarryOutStop(instanceID, stopped);
      if instanceID != "" && old(OnlyRecordedRuns(View(), instanceID)) {
        StopEndsAtRest(old(View()), instanceID);
        FailedStopCanBeRetried(old(View()), instanceID);
      }
    }

    method CarryOutStop(instanceID: string, stopped: bool) returns (ok: bool)
      modifies this`engine, tracker`records
      ensures View() == AfterStop(old(View()), instanceID, stopped)
      ensures ok <==> instanceID != "" && (stopped || !NeedsEngine(old(View()), instanceID))
    {
      if instanceID == "" {
        return false;
      }
      var found := tracker.Get(instanceID);
      if found.None? || found.value.state == Stopped {
        return true;
      }
      var rec := found.value.(state := Stopping);
      tracker.Set(instanceID, rec);
      if rec.container != "" {
        if !stopped {
          tracker.Set(instanceID, rec);
          return false;
        }
        if rec.container in engine {
          engine := engine[rec.container := engine[rec.container].(running := false)];
        }
      }
      tracker.Set(instanceID, rec.(state := Stopped));
      return true;
    }
  }
}
