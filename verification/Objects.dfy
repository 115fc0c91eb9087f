/**
 The objects behind the values of the other modules: the worker registry with its two
 indexes onto shared records, the router's table, and the idempotency store.
 */
module Objects {
  import opened Scheduler
  import Cluster
  import Idempotency

  class WorkerRecord {
    var value: Worker

    constructor (w: Worker)
      ensures value == w
    {
      value := w;
    }
  }

  /** What a worker announces when it registers. */
  datatype Announcement = Announcement(key: string, capacity: int, labels: map<string, string>)

  predicate ValidCapability(labels: map<string, string>) {
    Lookup(labels, "capability") in {"", "build", "runtime"}
  }

  /** The capability, if given, is one of the two there are. */
  predicate Announceable(labels: map<string, string>) {
    "capability" !in labels || labels["capability"] == "" || labels["capability"] == "build" || labels["capability"] == "runtime"
  }

  /** A registration makes the worker ready for work and leaves its identity and counter alone. */
  function Refreshed(w: Worker, a: Announcement): Worker {
    w.(capacity := a.capacity, labels := a.labels, state := Ready, health := Healthy, schedulable := true)
  }

  class Registry {
    /** By worker key, and by worker ID. */
    var workers: map<string, WorkerRecord>
    var byID: map<string, WorkerRecord>

    /** The two indexes hold the same records, each under its own key and ID. */
    ghost predicate Valid()
      reads this, workers.Values, byID.Values
    {
      && (forall k :: k in workers ==>
            workers[k].value.key == k && workers[k].value.id in byID && byID[workers[k].value.id] == workers[k])
      && (forall i :: i in byID ==>
            byID[i].value.id == i && byID[i].value.key in workers && workers[byID[i].value.key] == byID[i])
    }

    /** The workers by ID. */
    ghost function View(): map<string, Worker>
      reads this, byID.Values
    {
      map i | i in byID :: byID[i].value
    }

    constructor ()
      ensures Valid() && View() == map[]
    {
      workers, byID := map[], map[];
    }

    /** Finds a record by key or, failing that, by ID. */
    method FindWorker(name: string) returns (found: bool, r: WorkerRecord?)
      requires Valid()
      ensures found <==> name in workers || name in byID
      ensures found ==> r != null && r.value.id in byID && byID[r.value.id] == r && (r.value.key == name || r.value.id == name)
      ensures found && name in workers ==> r.value.key == name
    {
      if name in workers {
        return true, workers[name];
      }
      if name in byID {
        return true, byID[name];
      }
      return false, null;
    }

    /** Moves the counter of the worker that goes by the name, not below zero, and no other's. */
    method UpdateWorkload(name: string, delta: int)
      requires Valid()
      modifies byID.Values
      ensures Valid() && workers == old(workers) && byID == old(byID)
      ensures name !in workers && name !in byID ==> View() == old(View())
      ensures name in workers ==>
                var i := old(workers[name].value.id); View() == old(View())[i := Cluster.Counted(old(View())[i], delta)]
      ensures name !in workers && name in byID ==> View() == old(View())[name := Cluster.Counted(old(View())[name], delta)]
    {
      var found, r := FindWorker(name);
      if found {
        r.value := Cluster.Counted(r.value, delta);
      }
    }

    method Drain(name: string) returns (ok: bool)
      requires Valid()
      modifies byID.Values
      ensures Valid() && workers == old(workers) && byID == old(byID) && (ok <==> name in workers || name in byID)
      ensures !ok ==> View() == old(View())
      ensures name in workers ==>
                var i := old(workers[name].value.id);
                View() == old(View())[i := old(View())[i].(state := Draining, schedulable := false)]
      ensures name !in workers && name in byID ==>
                View() == old(View())[name := old(View())[name].(state := Draining, schedulable := false)]
    {
      var r;
      ok, r := FindWorker(name);
      if ok {
        r.value := r.value.(state := Draining, schedulable := false);
      }
    }

    /** A known key keeps its ID and counter; a new one gets the new ID.  Either way the worker is ready for work. */
    method Register(a: Announcement, newID: string) returns (ok: bool)
      requires Valid() && newID !in byID
      modifies this, byID.Values
      ensures Valid() && (ok <==> a.key != "" && Announceable(a.labels))
      ensures !ok ==> View() == old(View())
      ensures ok ==>
                var was := if a.key in old(workers) then old(workers[a.key].value)
                           else Worker(newID, a.key, 0, map[], Ready, Healthy, true, 0, false);
                View() == old(View())[was.id := Worker(was.id, was.key, a.capacity, a.labels, Ready, Healthy, true,
                                                       was.active, was.partitioned)]
    {
      if a.key == "" || !ValidCapability(a.labels) {
        return false;
      }
      if a.key in workers {
        var r := workers[a.key];
        r.value := Refreshed(r.value, a);
      } else {
        Add(Refreshed(Worker(newID, a.key, 0, map[], Ready, Healthy, true, 0, false), a));
      }
      return true;
    }

    method Add(w: Worker)
      requires Valid() && w.id !in byID && w.key !in workers
      modifies this
      ensures Valid() && View() == old(View())[w.id := w]
    {
      var r := new WorkerRecord(w);
      workers, byID := workers[w.key := r], byID[w.id := r];
    }
  }

  lemma {:induction false} WithoutNext(targets: seq<Cluster.Target>, i: nat, instance: string)
    requires i < |targets|
    ensures Cluster.Without(targets[i..], instance)
            == (if targets[i].instance != instance then [targets[i]] else []) + Cluster.Without(targets[i + 1..], instance)
  {
    assert targets[i..][1..] == targets[i + 1..];
  }

  class Router {
    var targets: map<string, seq<Cluster.Target>>

    constructor ()
      ensures targets == map[]
    {
      targets := map[];
    }

    /** The project's targets but for the instance, in their order. */
    method Remaining(project: string, instance: string) returns (updated: seq<Cluster.Target>)
      ensures updated == Cluster.Without(if project in targets then targets[project] else [], instance)
    {
      updated := Filter(if project in targets then targets[project] else [], instance);
    }

    static method Filter(existing: seq<Cluster.Target>, instance: string) returns (updated: seq<Cluster.Target>)
      ensures updated == Cluster.Without(existing, instance)
    {
      updated := [];
      ghost var all := Cluster.Without(existing, instance);
      assert existing[0..] == existing;
      for i := 0 to |existing|
        invariant updated + Cluster.Without(existing[i..], instance) == all
      {
        WithoutNext(existing, i, instance);
        if existing[i].instance != instance {
          updated := updated + [existing[i]];
        }
      }
    }

    method RegisterTarget(project: string, instance: string, worker: string)
      modifies this
      ensures var w := Cluster.World(map[], map[], map[], map[], {}, old(targets));
              targets == Cluster.RegisterTarget(w, project, instance, worker).targets
      ensures var others := Cluster.Without(if project in old(targets) then old(targets)[project] else [], instance);
              targets == old(targets)[project := others + [Cluster.Target(instance, worker)]]
    {
      var updated := Remaining(project, instance);
      targets := targets[project := updated + [Cluster.Target(instance, worker)]];
    }

    method UnregisterTarget(project: string, instance: string)
      modifies this
      ensures var w := Cluster.World(map[], map[], map[], map[], {}, old(targets));
              targets == Cluster.UnregisterTarget(w, project, instance).targets
      ensures targets == old(targets)[project :=
                Cluster.Without(if project in old(targets) then old(targets)[project] else [], instance)]
    {
      var updated := Remaining(project, instance);
      targets := targets[project := updated];
    }
  }

  class IdempotencyEntry {
    var completed: bool
    var response: Idempotency.Response
    var closed: bool

    constructor ()
      ensures !completed && !closed
    {
      completed, closed, response := false, false, Idempotency.BLANK;
    }
  }

  class IdempotencyStore {
    var entries: map<string, IdempotencyEntry>

    /** No two keys share an entry. */
    ghost predicate Valid()
      reads this
    {
      forall j, k :: j in entries && k in entries && entries[j] == entries[k] ==> j == k
    }

    constructor ()
      ensures Valid() && entries == map[]
    {
      entries := map[];
    }

    /** The first caller for a key gets a new open entry and is told to execute; every later caller gets that entry. */
    method GetOrReserve(key: string) returns (e: IdempotencyEntry, first: bool)
      requires Valid()
      modifies this
      ensures Valid() && (first <==> key !in old(entries))
      ensures entries == old(entries)[key := e]
      ensures first ==> fresh(e) && !e.closed
    {
      if key in entries {
        return entries[key], false;
      }
      e := new IdempotencyEntry();
      entries := entries[key := e];
      return e, true;
    }

    /** Stores the response and opens the way for waiters.  Closing twice would panic. */
    method Complete(key: string, r: Idempotency.Response)
      requires Valid() && (key in entries ==> !entries[key].closed)
      modifies entries.Values
      ensures Valid() && entries == old(entries)
      ensures key in entries ==> entries[key].completed && entries[key].closed && entries[key].response == r
      ensures forall k :: k in entries && k != key ==>
                entries[k].closed == old(entries[k].closed) && entries[k].response == old(entries[k].response)
    {
      if key in entries {
        var e := entries[key];
        e.completed := true;
        e.response := r;
        e.closed := true;
      }
    }
  }
}
