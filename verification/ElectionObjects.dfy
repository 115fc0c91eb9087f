/**
 The mutable objects of internal/ha/election.go: the lock with its critical sections and
 the elector with its methods, each proved against the specification of the step it takes.
 */
module ElectionObjects {
  import Spec = AdvisoryLock
  import opened Election

  class MemoryAdvisoryLock {
    var currentOwner: string
    var currentLock: int
    var lastRenew: int
    var leaseTTL: int
    var partitions: map<string, bool>

    ghost function State(): Spec.LockState
      reads this
    {
      Spec.LockState(currentOwner, currentLock, lastRenew, leaseTTL,
                set o | o in partitions && partitions[o])
    }

    constructor (ttl: int)
      ensures State().owner == "" && State().partitions == {}
      ensures State().ttl == (if ttl <= 0 then 1_000_000_000 else ttl)
    {
      currentOwner, currentLock, lastRenew := "", 0, 0;
      leaseTTL := if ttl <= 0 then 1_000_000_000 else ttl;
      partitions := map[];
    }

    predicate Partitioned(ownerID: string)
      reads this
      ensures Partitioned(ownerID) <==> ownerID in State().partitions
    {
      ownerID in partitions && partitions[ownerID]
    }

    method Partition(ownerID: string, partitioned: bool)
      modifies this
      ensures State() == old(State()).(partitions :=
                if partitioned then old(State()).partitions + {ownerID}
                else old(State()).partitions - {ownerID})
    {
      partitions := partitions[ownerID := partitioned];
    }

    method TryAcquire(now: int, lockID: int, ownerID: string) returns (reply: Spec.Reply)
      modifies this
      ensures (State(), reply) == Spec.TryAcquire(old(State()), now, lockID, ownerID)
      ensures reply == Spec.Unreachable <==> old(Partitioned(ownerID))
      ensures reply == Spec.Granted <==>
                !old(Partitioned(ownerID))
                && (old(currentOwner) == "" || old(currentOwner) == ownerID || now - old(lastRenew) > leaseTTL)
      ensures leaseTTL == old(leaseTTL) && partitions == old(partitions)
      ensures reply == Spec.Granted ==> currentOwner == ownerID && currentLock == lockID && lastRenew == now
      ensures reply != Spec.Granted ==>
                currentOwner == old(currentOwner) && currentLock == old(currentLock) && lastRenew == old(lastRenew)
    {
      if Partitioned(ownerID) {
        return Spec.Unreachable;
      }
      if currentOwner != "" && currentOwner != ownerID {
        if now - lastRenew > leaseTTL {
          currentOwner := "";
        }
      }
      if currentOwner == "" || currentOwner == ownerID {
        currentOwner := ownerID;
        currentLock := lockID;
        lastRenew := now;
        return Spec.Granted;
      }
      return Spec.Refused;
    }

    method RenewOrHold(now: int, lockID: int, ownerID: string) returns (reply: Spec.Reply)
      modifies this
      ensures (State(), reply) == Spec.RenewOrHold(old(State()), now, lockID, ownerID)
      ensures reply == Spec.Unreachable <==> old(Partitioned(ownerID))
      ensures reply == Spec.Granted <==>
                !old(Partitioned(ownerID)) && old(currentOwner) == ownerID && old(currentLock) == lockID
      ensures leaseTTL == old(leaseTTL) && partitions == old(partitions)
      ensures currentOwner == old(currentOwner) && currentLock == old(currentLock)
      ensures lastRenew == if reply == Spec.Granted then now else old(lastRenew)
    {
      if Partitioned(ownerID) {
        return Spec.Unreachable;
      }
      if currentOwner == ownerID && currentLock == lockID {
        lastRenew := now;
        return Spec.Granted;
      }
      return Spec.Refused;
    }

    method Release(lockID: int, ownerID: string)
      modifies this
      ensures State() == Spec.Release(old(State()), lockID, ownerID)
      ensures currentOwner == if old(currentOwner) == ownerID && old(currentLock) == lockID then "" else old(currentOwner)
      ensures lastRenew == old(lastRenew) && leaseTTL == old(leaseTTL) && partitions == old(partitions)
    {
      if currentOwner == ownerID && currentLock == lockID {
        currentOwner := "";
        currentLock := 0;
      }
    }
  }

  /**
   One control-plane instance.  These are the source's methods run without interruption;
   module Election takes them apart into their shared accesses.
   */
  class Elector {
    const ownerID: string
    const lockID: int
    var role: Role
    var stopped: bool
    var decisions: seq<(string, int)>

    constructor (ownerID: string, lockID: int)
      ensures this.ownerID == ownerID && this.lockID == (if lockID == 0 then 42424242 else lockID)
      ensures role == Standby && !stopped && decisions == []
    {
      this.ownerID := ownerID;
      this.lockID := if lockID == 0 then 42424242 else lockID;
      role, stopped, decisions := Standby, false, [];
    }

    method StepDown()
      modifies this`role
      ensures role == if old(role) == Leader then Standby else old(role)
    {
      if role == Leader {
        role := Fenced;
        role := Standby;
      }
    }

    /** One tick of the campaign loop: whoever leads afterwards has a lease that starts now. */
    method CampaignTick(lock: MemoryAdvisoryLock, now: int)
      modifies this`role, lock
      ensures old(role) == Leader ==>
                lock.State() == Spec.RenewOrHold(old(lock.State()), now, lockID, ownerID).0
                && (role == Leader <==> Spec.RenewOrHold(old(lock.State()), now, lockID, ownerID).1 == Spec.Granted)
      ensures old(role) != Leader ==>
                lock.State() == Spec.TryAcquire(old(lock.State()), now, lockID, ownerID).0
                && (role == Leader <==>
                      old(role) == Standby && Spec.TryAcquire(old(lock.State()), now, lockID, ownerID).1 == Spec.Granted)
      ensures role != Leader ==> role == (if old(role) == Leader then Standby else old(role))
      ensures role == Leader ==> lock.State().owner == ownerID && lock.State().lastRenew == now
      ensures old(role) == Leader ==>
                (role == Leader <==>
                   !old(lock.Partitioned(ownerID)) && old(lock.currentOwner) == ownerID && old(lock.currentLock) == lockID)
      ensures old(role) == Standby ==>
                (role == Leader <==>
                   !old(lock.Partitioned(ownerID))
                   && (old(lock.currentOwner) == "" || old(lock.currentOwner) == ownerID
                       || now - old(lock.lastRenew) > old(lock.leaseTTL)))
    {
      if role == Leader {
        var reply := lock.RenewOrHold(now, lockID, ownerID);
        if reply != Spec.Granted {
          StepDown();
        }
      } else {
        var reply := lock.TryAcquire(now, lockID, ownerID);
        if reply == Spec.Granted && role == Standby {
          role := Leader;
        }
      }
    }

    /** Stopping a leader frees the lock; stopping anyone else, or stopping twice, leaves it alone. */
    method Stop(lock: MemoryAdvisoryLock)
      modifies this`role, this`stopped, lock
      ensures stopped
      ensures lock.State() == if !old(stopped) && old(role) == Leader
                              then Spec.Release(old(lock.State()), lockID, ownerID) else old(lock.State())
      ensures role == if !old(stopped) && old(role) == Leader then Standby else old(role)
      ensures !old(stopped) && old(role) == Leader && old(lock.currentOwner) == ownerID && old(lock.currentLock) == lockID ==>
                lock.currentOwner == ""
      ensures old(stopped) || old(role) != Leader || old(lock.currentOwner) != ownerID || old(lock.currentLock) != lockID ==>
                lock.currentOwner == old(lock.currentOwner) && lock.lastRenew == old(lock.lastRenew)
    {
      if !stopped {
        stopped := true;
        if role == Leader {
          StepDown();
          lock.Release(lockID, ownerID);
        }
      }
    }

    /** A decision is recorded exactly when the instance leads, stamped with the present time. */
    method RecordDecision(now: int) returns (ok: bool)
      modifies this`decisions
      ensures ok <==> role == Leader
      ensures decisions == if ok then old(decisions) + [(ownerID, now)] else old(decisions)
    {
      if role != Leader {
        return false;
      }
      decisions := decisions + [(ownerID, now)];
      return true;
    }
  }
}
