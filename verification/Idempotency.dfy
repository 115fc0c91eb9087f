/**
 Request deduplication, internal/api/idempotency.go as used by createDeployment in
 handlers_deployments.go.  Any number of requests run interleaved, one memory access, lock
 operation or channel operation at a time.
 */
module Idempotency {
  import opened Wrappers
  import Runs

  /** A request being handled. */
  datatype Request = Request(number: nat)

  datatype Response = Response(code: int, header: map<string, seq<string>>, body: string)

  const BLANK := Response(0, map[], "")

  /** An entry as it lies in memory; `closes` counts the closings of its channel. */
  datatype Entry = Entry(completed: bool, response: Response, closes: nat, writer: Option<Request>, readers: set<Request>)

  /** Where a request stands.  An executor writes the fields one by one: status, code, header, body, then closes. */
  datatype Phase =
    | Arrived(key: string)
    | Executing(key: string, e: nat)
    | LookedUp(key: string, e: nat, r: Response)
    | Writing(key: string, e: nat, r: Response, done: nat)
    | Replied(key: string, e: nat, r: Response)
    | Waiting(key: string, e: nat)
    | Woken(key: string, e: nat)
    | Reading(key: string, e: nat, done: nat, seen: Response)
    | Returned(key: string, e: nat, r: Response)

  /** The store's map, the entries in memory, the requests, and who was told to execute each key. */
  datatype State = State(entries: map<string, nat>, heap: seq<Entry>, requests: map<Request, Phase>, first: map<string, Request>)

  datatype Step =
    | Arrive(t: Request, key: string)
    | Respond(t: Request, r: Response)
    | Advance(t: Request)

  const LAST_WRITE := 5

  function Written(e: Entry, r: Response, done: nat): Entry {
    match done
    case 0 => e.(completed := true)
    case 1 => e.(response := e.response.(code := r.code))
    case 2 => e.(response := e.response.(header := r.header))
    case 3 => e.(response := e.response.(body := r.body))
    case _ => e.(closes := e.closes + 1)
  }

  function Seen(e: Entry, seen: Response, done: nat): Response {
    match done
    case 0 => seen.(code := e.response.code)
    case 1 => seen.(header := e.response.header)
    case _ => seen.(body := e.response.body)
  }

  function Put(s: State, t: Request, p: Phase): State {
    s.(requests := s.requests[t := p])
  }

  function PutEntry(s: State, e: nat, x: Entry): State
    requires e < |s.heap|
  {
    s.(heap := s.heap[e := x])
  }

  /** GetOrReserve, one step under the store's mutex. */
  function Reserve(s: State, t: Request, key: string): State {
    if key in s.entries then Put(s, t, Waiting(key, s.entries[key]))
    else
      var e := |s.heap|;
      Put(s, t, Executing(key, e)).(
        entries := s.entries[key := e], heap := s.heap + [Entry(false, BLANK, 0, None, {})], first := s.first[key := t])
  }

  function Step1(s: State, t: Request): Option<State>
    requires t in s.requests
  {
    match s.requests[t]
    case Arrived(key) => Some(Reserve(s, t, key))
    case LookedUp(key, e, r) =>
      if e < |s.heap| && s.heap[e].writer.None? && s.heap[e].readers == {}
      then Some(PutEntry(Put(s, t, Writing(key, e, r, 0)), e, s.heap[e].(writer := Some(t)))) else None
    case Writing(key, e, r, done) =>
      if e >= |s.heap| then None
      else if done < LAST_WRITE then Some(PutEntry(Put(s, t, Writing(key, e, r, done + 1)), e, Written(s.heap[e], r, done)))
      else Some(PutEntry(Put(s, t, Replied(key, e, r)), e, s.heap[e].(writer := None)))
    case Waiting(key, e) => if e < |s.heap| && s.heap[e].closes > 0 then Some(Put(s, t, Woken(key, e))) else None
    case Woken(key, e) =>
      if e < |s.heap| && s.heap[e].writer.None?
      then Some(PutEntry(Put(s, t, Reading(key, e, 0, BLANK)), e, s.heap[e].(readers := s.heap[e].readers + {t}))) else None
    case Reading(key, e, done, seen) =>
      if e >= |s.heap| then None
      else if done < 3 then Some(Put(s, t, Reading(key, e, done + 1, Seen(s.heap[e], seen, done))))
      else Some(PutEntry(Put(s, t, Returned(key, e, seen)), e, s.heap[e].(readers := s.heap[e].readers - {t})))
    case _ => None
  }

  function Next(s: State, step: Step): Option<State> {
    match step
    case Arrive(t, key) => if t in s.requests then None else Some(Put(s, t, Arrived(key)))
    case Respond(t, r) =>
      if t in s.requests && s.requests[t].Executing? && s.requests[t].key in s.entries
      then Some(Put(s, t, LookedUp(s.requests[t].key, s.entries[s.requests[t].key], r))) else None
    case Advance(t) => if t in s.requests then Step1(s, t) else None
  }

  // ----- invariant

  predicate Executor(p: Phase) {
    p.Executing? || p.LookedUp? || p.Writing? || p.Replied?
  }

  /** How many of the executor's writes are done; the sixth is the unlock. */
  function Progress(p: Phase): nat {
    if p.Writing? then p.done else if p.Replied? then LAST_WRITE + 1 else 0
  }

  /** What the entry holds when its executor is at `p`. */
  ghost predicate EntryFits(x: Entry, t: Request, p: Phase)
    requires Executor(p)
  {
    && x.closes == (if Progress(p) >= LAST_WRITE then 1 else 0)
    && x.writer == (if p.Writing? then Some(t) else None)
    && (x.readers != {} ==> p.Replied?)
    && (p.Writing? ==> p.done <= LAST_WRITE)
    && (Progress(p) >= 1 ==> x.completed)
    && (Progress(p) >= 2 ==> x.response.code == p.r.code)
    && (Progress(p) >= 3 ==> x.response.header == p.r.header)
    && (Progress(p) >= 4 ==> x.response.body == p.r.body)
  }

  ghost predicate KeyFits(s: State, key: string) {
    && key in s.entries && s.entries[key] < |s.heap|
    && key in s.first && s.first[key] in s.requests
    && Executor(s.requests[s.first[key]]) && s.requests[s.first[key]].key == key
    && EntryFits(s.heap[s.entries[key]], s.first[key], s.requests[s.first[key]])
  }

  /** What a request that did not execute knows of its entry. */
  ghost predicate FollowerFits(x: Entry, t: Request, p: Phase) {
    match p
    case Woken(_, _) => x.closes == 1
    case Reading(_, _, done, seen) =>
      && x.closes == 1 && t in x.readers && done <= 3
      && (done >= 1 ==> seen.code == x.response.code)
      && (done >= 2 ==> seen.header == x.response.header)
      && (done >= 3 ==> seen.body == x.response.body)
    case Returned(_, _, r) => x.closes == 1 && x.writer.None? && r == x.response
    case _ => true
  }

  ghost predicate RequestFits(s: State, t: Request)
    requires t in s.requests
  {
    var p := s.requests[t];
    p.Arrived? || (
      && KeyFits(s, p.key) && p.e == s.entries[p.key]
      && (Executor(p) ==> s.first[p.key] == t)
      && FollowerFits(s.heap[p.e], t, p))
  }

  ghost predicate Distinct(s: State) {
    forall j, k :: j in s.entries && k in s.entries && s.entries[j] == s.entries[k] ==> j == k
  }

  ghost predicate Inv(s: State) {
    && Distinct(s)
    && (forall k :: k in s.entries ==> KeyFits(s, k))
    && (forall t :: t in s.requests ==> RequestFits(s, t))
  }

  // ----- one request moves, one entry changes

  ghost predicate Joined(s: State, t: Request) {
    t in s.requests && !s.requests[t].Arrived?
  }

  /** The executor's phase after request `t` has moved to `p`. */
  function ExecutorAfter(s: State, key: string, t: Request, p: Phase): Phase
    requires key in s.first && s.first[key] in s.requests
  {
    if s.first[key] == t then p else s.requests[s.first[key]]
  }

  ghost predicate SafeChange(s: State, t: Request, p: Phase, x: Entry)
    requires Joined(s, t) && RequestFits(s, t)
  {
    var q := s.requests[t];
    && !p.Arrived? && p.key == q.key && p.e == q.e && Executor(p) == Executor(q)
    && EntryFits(x, s.first[q.key], ExecutorAfter(s, q.key, t, p))
    && FollowerFits(x, t, p)
    && OthersFit(s, t, q.e, x)
  }

  /** Whatever the other requests knew of the entry still holds. */
  ghost predicate OthersFit(s: State, t: Request, e: nat, x: Entry)
    requires e < |s.heap|
  {
    forall u :: u in s.requests && u != t && FollowerFits(s.heap[e], u, s.requests[u]) ==>
        FollowerFits(x, u, s.requests[u])
  }

  lemma {:induction false} KeyAfter(s: State, t: Request, p: Phase, x: Entry, k: string)
    requires Inv(s) && Joined(s, t) && RequestFits(s, t) && SafeChange(s, t, p, x) && k in s.entries
    ensures KeyFits(PutEntry(Put(s, t, p), s.requests[t].e, x), k)
  {
    assert KeyFits(s, k);
  }

  lemma {:induction false} RequestAfter(s: State, t: Request, p: Phase, x: Entry, u: Request)
    requires Inv(s) && Joined(s, t) && RequestFits(s, t) && SafeChange(s, t, p, x) && u in s.requests
    ensures RequestFits(PutEntry(Put(s, t, p), s.requests[t].e, x), u)
  {
    assert RequestFits(s, u);
    if Joined(s, u) {
      assert KeyFits(s, s.requests[u].key);
      KeyAfter(s, t, p, x, s.requests[u].key);
    }
  }

  lemma {:induction false} ChangeKeepsInv(s: State, t: Request, p: Phase, x: Entry)
    requires Inv(s) && Joined(s, t) && RequestFits(s, t) && SafeChange(s, t, p, x)
    ensures Inv(PutEntry(Put(s, t, p), s.requests[t].e, x))
  {
    var v := PutEntry(Put(s, t, p), s.requests[t].e, x);
    forall k | k in v.entries ensures KeyFits(v, k) {
      KeyAfter(s, t, p, x, k);
    }
    forall u | u in v.requests ensures RequestFits(v, u) {
      RequestAfter(s, t, p, x, u);
    }
  }

  // ----- the steps

  lemma {:induction false} ArriveKeepsInv(s: State, t: Request, key: string)
    requires Inv(s) && t !in s.requests
    ensures Inv(Put(s, t, Arrived(key)))
  {
    var v := Put(s, t, Arrived(key));
    forall k | k in v.entries ensures KeyFits(v, k) {
      assert KeyFits(s, k);
    }
    forall u | u in v.requests ensures RequestFits(v, u) {
      if u != t {
        assert RequestFits(s, u);
      }
    }
  }

  /** What is known of a joined request is not affected by a reservation. */
  lemma {:induction false} OldStillFits(s: State, t: Request, key: string, k: string)
    requires Inv(s) && t in s.requests && s.requests[t] == Arrived(key) && k in s.entries
    ensures KeyFits(Reserve(s, t, key), k)
    ensures Reserve(s, t, key).entries[k] == s.entries[k] && Reserve(s, t, key).first[k] == s.first[k]
    ensures Reserve(s, t, key).heap[s.entries[k]] == s.heap[s.entries[k]]
  {
    assert KeyFits(s, k);
  }

  lemma {:induction false} RequestStillFits(s: State, t: Request, key: string, u: Request)
    requires Inv(s) && t in s.requests && s.requests[t] == Arrived(key) && u in s.requests && u != t
    ensures RequestFits(Reserve(s, t, key), u)
  {
    assert RequestFits(s, u);
    if Joined(s, u) {
      OldStillFits(s, t, key, s.requests[u].key);
    }
  }

  lemma {:induction false} ReserveKeepsDistinct(s: State, t: Request, key: string)
    requires Inv(s)
    ensures Distinct(Reserve(s, t, key))
  {
    var v := Reserve(s, t, key);
    forall k | k in s.entries ensures s.entries[k] < |s.heap| {
      assert KeyFits(s, k);
    }
  }

  lemma {:induction false} ReserveKeepsInv(s: State, t: Request, key: string)
    requires Inv(s) && t in s.requests && s.requests[t] == Arrived(key)
    ensures Inv(Reserve(s, t, key))
  {
    var v := Reserve(s, t, key);
    ReserveKeepsDistinct(s, t, key);
    forall k | k in v.entries ensures KeyFits(v, k) {
      if k in s.entries {
        OldStillFits(s, t, key, k);
      }
    }
    forall u | u in v.requests ensures RequestFits(v, u) {
      if u != t {
        RequestStillFits(s, t, key, u);
      }
    }
  }

  lemma {:induction false} RespondKeepsInv(s: State, t: Request, r: Response)
    requires Inv(s) && t in s.requests && s.requests[t].Executing? && s.requests[t].key in s.entries
    ensures Inv(Next(s, Respond(t, r)).value)
  {
    assert RequestFits(s, t);
    var q := s.requests[t];
    assert KeyFits(s, q.key);
    var p, x := LookedUp(q.key, q.e, r), s.heap[q.e];
    ChangeKeepsInv(s, t, p, x);
    assert s.heap[q.e := x] == s.heap;
  }

  lemma {:induction false} LockKeepsInv(s: State, t: Request)
    requires Inv(s) && t in s.requests && s.requests[t].LookedUp? && Step1(s, t).Some?
    ensures Inv(Step1(s, t).value)
  {
    assert RequestFits(s, t);
    var q := s.requests[t];
    assert KeyFits(s, q.key);
    ChangeKeepsInv(s, t, Writing(q.key, q.e, q.r, 0), s.heap[q.e].(writer := Some(t)));
  }

  lemma {:induction false} WriteKeepsInv(s: State, t: Request)
    requires Inv(s) && t in s.requests && s.requests[t].Writing? && Step1(s, t).Some?
    ensures Inv(Step1(s, t).value)
  {
    assert RequestFits(s, t);
    var q := s.requests[t];
    assert KeyFits(s, q.key);
    var before := s.heap[q.e];
    if q.done < LAST_WRITE {
      ChangeKeepsInv(s, t, Writing(q.key, q.e, q.r, q.done + 1), Written(before, q.r, q.done));
    } else {
      ChangeKeepsInv(s, t, Replied(q.key, q.e, q.r), before.(writer := None));
    }
  }

  lemma {:induction false} WakeKeepsInv(s: State, t: Request)
    requires Inv(s) && t in s.requests && s.requests[t].Waiting? && Step1(s, t).Some?
    ensures Inv(Step1(s, t).value)
  {
    assert RequestFits(s, t);
    var q := s.requests[t];
    assert KeyFits(s, q.key);
    ChangeKeepsInv(s, t, Woken(q.key, q.e), s.heap[q.e]);
    assert s.heap[q.e := s.heap[q.e]] == s.heap;
  }

  lemma {:induction false} ReadLockKeepsInv(s: State, t: Request)
    requires Inv(s) && t in s.requests && s.requests[t].Woken? && Step1(s, t).Some?
    ensures Inv(Step1(s, t).value)
  {
    assert RequestFits(s, t);
    var q := s.requests[t];
    assert KeyFits(s, q.key);
    ChangeKeepsInv(s, t, Reading(q.key, q.e, 0, BLANK), s.heap[q.e].(readers := s.heap[q.e].readers + {t}));
  }

  lemma {:induction false} ReadKeepsInv(s: State, t: Request)
    requires Inv(s) && t in s.requests && s.requests[t].Reading? && Step1(s, t).Some?
    ensures Inv(Step1(s, t).value)
  {
    assert RequestFits(s, t);
    var q := s.requests[t];
    assert KeyFits(s, q.key);
    if q.done < 3 {
      ReadOneKeepsInv(s, t);
    } else {
      var x := s.heap[q.e];
      ChangeKeepsInv(s, t, Returned(q.key, q.e, q.seen), x.(readers := x.readers - {t}));
    }
  }

  lemma {:induction false} ReadOneKeepsInv(s: State, t: Request)
    requires Inv(s) && t in s.requests && s.requests[t].Reading? && s.requests[t].done < 3 && Step1(s, t).Some?
    ensures Inv(Step1(s, t).value)
  {
    assert RequestFits(s, t);
    var q := s.requests[t];
    assert KeyFits(s, q.key);
    var x := s.heap[q.e];
    ChangeKeepsInv(s, t, Reading(q.key, q.e, q.done + 1, Seen(x, q.seen, q.done)), x);
    assert s.heap[q.e := x] == s.heap;
  }

  lemma {:induction false} StepKeepsInv(s: State, step: Step)
    requires Inv(s) && Next(s, step).Some?
    ensures Inv(Next(s, step).value)
  {
    match step
    case Arrive(t, key) => ArriveKeepsInv(s, t, key);
    case Respond(t, r) => RespondKeepsInv(s, t, r);
    case Advance(t) =>
      match s.requests[t] {
        case Arrived(key) => ReserveKeepsInv(s, t, key);
        case LookedUp(_, _, _) => LockKeepsInv(s, t);
        case Writing(_, _, _, _) => WriteKeepsInv(s, t);
        case Waiting(_, _) => WakeKeepsInv(s, t);
        case Woken(_, _) => ReadLockKeepsInv(s, t);
        case Reading(_, _, _, _) => ReadKeepsInv(s, t);
      }
  }

  // ----- the theorem

  const START := State(map[], [], map[], map[])

  function Exec(s: State, steps: seq<Step>): Option<State> {
    Runs.Exec(Next, s, steps)
  }

  /** Of the requests with a key, once any has got past the store, exactly one was told to execute. */
  ghost predicate OneExecutor(s: State, key: string) {
    && (forall t, u :: Executes(s, t, key) && Executes(s, u, key) ==> t == u)
    && (forall t :: Joined(s, t) && s.requests[t].key == key ==>
          key in s.first && Executes(s, s.first[key], key))
  }

  ghost predicate Executes(s: State, t: Request, key: string) {
    t in s.requests && s.requests[t].key == key && Executor(s.requests[t])
  }

  /** A request that returned without executing returned exactly what the executor of its key replied. */
  ghost predicate RepliesAgree(s: State, t: Request) {
    t in s.requests && s.requests[t].Returned? ==>
      var key := s.requests[t].key;
      key in s.first && s.first[key] in s.requests && s.requests[s.first[key]].Replied?
      && s.requests[s.first[key]].key == key && s.requests[t].r == s.requests[s.first[key]].r
  }

  /**
   Over any interleaving of any number of requests: per key exactly one executes, its entry's
   channel is closed at most once, and every other caller returns exactly the status, headers
   and body the executor stored.
   */
  lemma {:induction false} IdempotencyHolds(steps: seq<Step>, s: State)
    requires Exec(START, steps) == Some(s)
    ensures forall key :: OneExecutor(s, key)
    ensures forall key :: key in s.entries ==> s.entries[key] < |s.heap| && s.heap[s.entries[key]].closes <= 1
    ensures forall t :: RepliesAgree(s, t)
  {
    forall u, step | Inv(u) && Next(u, step).Some? ensures Inv(Next(u, step).value) {
      StepKeepsInv(u, step);
    }
    Runs.RunKeeps(Next, u => Inv(u), START, steps);
    forall key ensures OneExecutor(s, key) {
      forall t | Joined(s, t) && s.requests[t].key == key
        ensures key in s.first && Executes(s, s.first[key], key)
      {
        assert RequestFits(s, t);
      }
      forall t | Executes(s, t, key) ensures key in s.first && s.first[key] == t {
        assert RequestFits(s, t);
      }
    }
    forall key | key in s.entries ensures s.entries[key] < |s.heap| && s.heap[s.entries[key]].closes <= 1 {
      assert KeyFits(s, key);
    }
    forall t ensures RepliesAgree(s, t) {
      if t in s.requests && s.requests[t].Returned? {
        assert RequestFits(s, t);
        assert KeyFits(s, s.requests[t].key);
      }
    }
  }

  // ----- nobody is stuck

  predicate Finished(p: Phase) {
    p.Replied? || p.Returned?
  }

  ghost predicate CanMove(s: State, t: Request) {
    t in s.requests && (Next(s, Advance(t)).Some? || Next(s, Respond(t, BLANK)).Some?)
  }

  lemma {:induction false} ExecutorCanMove(s: State, t: Request)
    requires Inv(s) && t in s.requests && Executor(s.requests[t]) && !Finished(s.requests[t])
    ensures CanMove(s, t)
  {
    assert RequestFits(s, t);
    assert KeyFits(s, s.requests[t].key);
  }

  /** A request that is not done can move, or is waiting for its executor, which can. */
  lemma {:induction false} SomeoneCanMove(s: State, t: Request)
    requires Inv(s) && t in s.requests && !Finished(s.requests[t])
    ensures CanMove(s, t) || (Joined(s, t) && s.requests[t].key in s.first && CanMove(s, s.first[s.requests[t].key]))
  {
    assert RequestFits(s, t);
    var p := s.requests[t];
    if Executor(p) {
      ExecutorCanMove(s, t);
    } else if !p.Arrived? {
      assert KeyFits(s, p.key);
      if !Finished(s.requests[s.first[p.key]]) {
        ExecutorCanMove(s, s.first[p.key]);
      }
    }
  }
}
