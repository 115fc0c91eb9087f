/**
 The in-memory advisory lock of internal/ha/election.go: one owner slot with a lease
 that any other owner may take over once it has run out.  Each call is one critical
 section, so one function on the lock's state says what it does.
 */
module AdvisoryLock {

  /** Times are nanoseconds of one monotonic clock.  `owner == ""` means the slot is free. */
  datatype LockState = LockState(
    owner: string,
    lockID: int,
    lastRenew: int,
    ttl: int,
    partitions: set<string>)

  /** What a caller sees: granted, refused, or an error because it is partitioned away. */
  datatype Reply = Granted | Refused | Unreachable

  predicate Expired(l: LockState, now: int) {
    now - l.lastRenew > l.ttl
  }

  /** The slot is open to `ownerID`: free, already its own, or held past its lease. */
  predicate OpenTo(l: LockState, now: int, ownerID: string) {
    l.owner == "" || l.owner == ownerID || Expired(l, now)
  }

  function TryAcquire(l: LockState, now: int, lockID: int, ownerID: string): (LockState, Reply) {
    if ownerID in l.partitions then (l, Unreachable)
    else if OpenTo(l, now, ownerID) then (l.(owner := ownerID, lockID := lockID, lastRenew := now), Granted)
    else (l, Refused)
  }

  function RenewOrHold(l: LockState, now: int, lockID: int, ownerID: string): (LockState, Reply) {
    if ownerID in l.partitions then (l, Unreachable)
    else if l.owner == ownerID && l.lockID == lockID then (l.(lastRenew := now), Granted)
    else (l, Refused)
  }

  /** Release does not consult the partition table. */
  function Release(l: LockState, lockID: int, ownerID: string): LockState {
    if l.owner == ownerID && l.lockID == lockID then l.(owner := "", lockID := 0) else l
  }
}
