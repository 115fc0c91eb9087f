/**
 The reference-counted keyed mutex of internal/runtime/idempotency.go, as a machine over
 any number of threads and keys.  Table entries are created by the first thread to ask for
 a key and deleted by the last one to leave, so that different threads could in principle
 end up with different lock objects for the same key.
 */
module KeyedLock {
  import opened Wrappers
  import Runs

  datatype Thread = Thread(number: nat)

  /** A heap-allocated lock object: its mutex and its reference count. */
  datatype LockObj = LockObj(holder: Option<Thread>, refCount: int)

  /** Where a thread is between entering LockInstance and finishing its unlock function. */
  datatype Place =
    | Waiting(key: string, obj: int) // counted, has not got the mutex
    | Inside(key: string, obj: int)  // holds the mutex
    | Leaving(key: string, obj: int) // has released the mutex, still counted

  datatype Locks = Locks(
    table: map<string, int>,   // keyLocks: key to lock object
    objs: map<int, LockObj>,   // every lock object ever allocated
    next: nat,                 // allocation counter
    threads: map<Thread, Place>) // threads in flight

  datatype Step =
    | Enter(t: Thread, key: string)
    | Acquire(t: Thread)
    | Unlock(t: Thread)
    | Leave(t: Thread)

  const EMPTY := Locks(map[], map[], 0, map[])

  /** First critical section: find or create the entry and count the thread. */
  function EnterKey(s: Locks, t: Thread, key: string): Locks {
    if key in s.table && s.table[key] in s.objs then
      var o := s.table[key];
      s.(objs := s.objs[o := s.objs[o].(refCount := s.objs[o].refCount + 1)],
         threads := s.threads[t := Waiting(key, o)])
    else
      s.(table := s.table[key := s.next],
         objs := s.objs[s.next := LockObj(None, 1)],
         next := s.next + 1,
         threads := s.threads[t := Waiting(key, s.next)])
  }

  /** Last critical section: uncount the thread and delete the entry when it was the last. */
  function LeaveKey(s: Locks, t: Thread, key: string, o: int): Locks
    requires o in s.objs
  {
    var n := s.objs[o].refCount - 1;
    s.(objs := s.objs[o := s.objs[o].(refCount := n)],
       table := if n == 0 then s.table - {key} else s.table,
       threads := s.threads - {t})
  }

  function Next(s: Locks, step: Step): Option<Locks> {
    match step
    case Enter(t, key) => if t in s.threads then None else Some(EnterKey(s, t, key))
    case Acquire(t) =>
      if t in s.threads && s.threads[t].Waiting? && s.threads[t].obj in s.objs && s.objs[s.threads[t].obj].holder == None then
        var p := s.threads[t];
        Some(s.(objs := s.objs[p.obj := s.objs[p.obj].(holder := Some(t))], threads := s.threads[t := Inside(p.key, p.obj)]))
      else None
    case Unlock(t) =>
      if t in s.threads && s.threads[t].Inside? && s.threads[t].obj in s.objs then
        var p := s.threads[t];
        Some(s.(objs := s.objs[p.obj := s.objs[p.obj].(holder := None)], threads := s.threads[t := Leaving(p.key, p.obj)]))
      else None
    case Leave(t) =>
      if t in s.threads && s.threads[t].Leaving? && s.threads[t].obj in s.objs then
        Some(LeaveKey(s, t, s.threads[t].key, s.threads[t].obj))
      else None
  }

  function Exec(s: Locks, steps: seq<Step>): Option<Locks> {
    Runs.Exec(Next, s, steps)
  }

  // ----- properties

  /** The threads between entry and final decrement for a key. */
  ghost function InFlight(s: Locks, key: string): set<Thread> {
    set t | t in s.threads && s.threads[t].key == key
  }

  ghost predicate MutualExclusion(s: Locks) {
    forall t, u :: t in s.threads && u in s.threads && s.threads[t].Inside? && s.threads[u].Inside? ==>
      s.threads[t].key == s.threads[u].key ==> t == u
  }

  /** All threads in flight for a key use the lock object the table maps it to. */
  ghost predicate SharedObject(s: Locks) {
    forall t :: t in s.threads ==> s.threads[t].key in s.table && s.table[s.threads[t].key] == s.threads[t].obj
  }

  /** A mapped object counts exactly the threads in flight for its key, and there is at least one. */
  ghost predicate CountsExact(s: Locks) {
    forall k :: k in s.table ==> CountExact(s, k)
  }

  ghost predicate CountExact(s: Locks, key: string)
    requires key in s.table
  {
    s.table[key] in s.objs && s.objs[s.table[key]].refCount == |InFlight(s, key)| > 0
  }

  /** The mutex of a mapped object is held by the one thread inside its key, if any. */
  ghost predicate InsideHolds(s: Locks) {
    forall t :: t in s.threads && s.threads[t].Inside? ==>
      s.threads[t].obj in s.objs && s.objs[s.threads[t].obj].holder == Some(t)
  }

  ghost predicate HolderIsInside(s: Locks) {
    forall k :: k in s.table && s.table[k] in s.objs && s.objs[s.table[k]].holder.Some? ==>
      s.objs[s.table[k]].holder.value in s.threads
      && s.threads[s.objs[s.table[k]].holder.value] == Inside(k, s.table[k])
  }

  ghost predicate DistinctObjects(s: Locks) {
    forall k, l :: k in s.table && l in s.table && s.table[k] == s.table[l] ==> k == l
  }

  ghost predicate Inv(s: Locks) {
    && SharedObject(s)
    && CountsExact(s)
    && InsideHolds(s)
    && HolderIsInside(s)
    && DistinctObjects(s)
    && (forall o :: o in s.objs ==> o < s.next)
  }

  /** Only the count of the key a thread enters or leaves depends on that thread. */
  lemma {:induction false} CountUnaffected(s: Locks, r: Locks, t: Thread, key: string, k: string)
    requires k in s.table && k in r.table && s.table[k] == r.table[k] && k != key && CountExact(s, k)
    requires r.table[k] in r.objs && r.objs[r.table[k]] == s.objs[s.table[k]]
    requires r.threads - {t} == s.threads - {t}
    requires t in s.threads ==> s.threads[t].key == key
    requires t in r.threads ==> r.threads[t].key == key
    ensures CountExact(r, k)
  {
    forall u | u != t ensures u in r.threads <==> u in s.threads {
      assert u in r.threads <==> u in r.threads - {t};
      assert u in s.threads <==> u in s.threads - {t};
    }
    forall u | u in r.threads && u != t ensures r.threads[u] == s.threads[u] {
      assert r.threads[u] == (r.threads - {t})[u] && s.threads[u] == (s.threads - {t})[u];
    }
    assert InFlight(r, k) == InFlight(s, k);
  }

  lemma {:induction false} EnterKeepsCounts(s: Locks, t: Thread, key: string)
    requires Inv(s) && t !in s.threads
    ensures CountsExact(EnterKey(s, t, key))
  {
    var r := EnterKey(s, t, key);
    assert r.threads - {t} == s.threads - {t};
    forall k | k in r.table ensures CountExact(r, k) {
      if k == key {
        if key !in s.table {
          assert InFlight(s, key) == {};
        }
        assert InFlight(r, key) == InFlight(s, key) + {t};
      } else {
        CountUnaffected(s, r, t, key, k);
      }
    }
  }

  lemma {:induction false} EnterKeepsObjects(s: Locks, t: Thread, key: string)
    requires Inv(s) && t !in s.threads
    ensures SharedObject(EnterKey(s, t, key)) && InsideHolds(EnterKey(s, t, key))
    ensures DistinctObjects(EnterKey(s, t, key))
  {
    forall k | k in s.table ensures s.table[k] < s.next {
      assert CountExact(s, k);
    }
  }

  lemma {:induction false} EnterKeepsInv(s: Locks, t: Thread, key: string)
    requires Inv(s) && t !in s.threads
    ensures Inv(EnterKey(s, t, key))
  {
    var r := EnterKey(s, t, key);
    EnterKeepsCounts(s, t, key);
    EnterKeepsObjects(s, t, key);
    forall k | k in r.table && r.objs[r.table[k]].holder.Some?
      ensures r.objs[r.table[k]].holder.value in r.threads
      ensures r.threads[r.objs[r.table[k]].holder.value] == Inside(k, r.table[k])
    {
      assert CountExact(r, k);
      assert k in s.table && CountExact(s, k);
      assert s.objs[s.table[k]].holder == r.objs[r.table[k]].holder;
    }
  }

  lemma {:induction false} LeaveKeepsInv(s: Locks, t: Thread)
    requires Inv(s) && t in s.threads && s.threads[t].Leaving?
    ensures s.threads[t].obj in s.objs && Inv(LeaveKey(s, t, s.threads[t].key, s.threads[t].obj))
  {
    var key, o := s.threads[t].key, s.threads[t].obj;
    assert CountExact(s, key);
    var r := LeaveKey(s, t, key, o);
    assert t in InFlight(s, key);
    assert InFlight(r, key) == InFlight(s, key) - {t};
    forall u | u in r.threads ensures r.threads[u].key in r.table {
      if r.threads[u].key == key {
        assert u in InFlight(r, key);
        assert |InFlight(r, key)| > 0;
      }
    }
    assert r.threads - {t} == s.threads - {t};
    forall k | k in r.table ensures CountExact(r, k) {
      if k != key {
        CountUnaffected(s, r, t, key, k);
      }
    }
  }

  lemma {:induction false} SwitchKeepsInv(s: Locks, step: Step)
    requires Inv(s) && (step.Acquire? || step.Unlock?) && Next(s, step).Some?
    ensures Inv(Next(s, step).value)
  {
    var r := Next(s, step).value;
    forall k | k in r.table ensures CountExact(r, k) {
      assert CountExact(s, k);
      assert InFlight(r, k) == InFlight(s, k);
    }
  }

  lemma {:induction false} StepKeepsInv(s: Locks, step: Step)
    requires Inv(s) && Next(s, step).Some?
    ensures Inv(Next(s, step).value)
  {
    match step
    case Enter(t, key) => EnterKeepsInv(s, t, key);
    case Leave(t) => LeaveKeepsInv(s, t);
    case _ => SwitchKeepsInv(s, step);
  }

  lemma {:induction false} RunKeepsInv(s: Locks, steps: seq<Step>)
    requires Inv(s) && Exec(s, steps).Some?
    ensures Inv(Exec(s, steps).value)
    decreases |steps|
  {
    if steps != [] {
      StepKeepsInv(s, steps[0]);
      RunKeepsInv(Next(s, steps[0]).value, steps[1..]);
    }
  }

  /**
   Over every interleaving of any number of threads and keys: mutual exclusion per key, one
   lock object per key in use, exact reference counts, and an entry exactly while some
   thread is in flight.
   */
  lemma {:induction false} KeyedLockIsCorrect(steps: seq<Step>)
    requires Exec(EMPTY, steps).Some?
    ensures var s := Exec(EMPTY, steps).value;
            MutualExclusion(s) && SharedObject(s) && CountsExact(s)
            && forall k :: k in s.table <==> exists t :: t in s.threads && s.threads[t].key == k
  {
    RunKeepsInv(EMPTY, steps);
    var s := Exec(EMPTY, steps).value;
    forall t, u | t in s.threads && u in s.threads && s.threads[t].Inside? && s.threads[u].Inside? && s.threads[t].key == s.threads[u].key
      ensures t == u
    {
      var k := s.threads[t].key;
      assert s.objs[s.table[k]].holder == Some(t);
    }
    forall k | k in s.table ensures exists t :: t in s.threads && s.threads[t].key == k {
      assert CountExact(s, k);
      var t :| t in InFlight(s, k);
    }
  }

  /**
   The lock never wedges: a counted thread that waits can take the mutex, unless some other
   thread is inside; and a thread that holds the mutex or has released it can always go on.
   */
  lemma {:induction false} SomeThreadCanMove(s: Locks, t: Thread)
    requires Inv(s) && t in s.threads
    ensures s.threads[t].Inside? ==> Next(s, Unlock(t)).Some?
    ensures s.threads[t].Leaving? ==> Next(s, Leave(t)).Some?
    ensures s.threads[t].Waiting? ==>
              Next(s, Acquire(t)).Some?
              || exists u :: u in s.threads && s.threads[u] == Inside(s.threads[t].key, s.threads[t].obj)
  {
    var k := s.threads[t].key;
    assert CountExact(s, k);
    if s.threads[t].Waiting? && s.objs[s.table[k]].holder.Some? {
      var u := s.objs[s.table[k]].holder.value;
      assert u in s.threads && s.threads[u] == Inside(k, s.table[k]);
    }
  }
}
