/** Runs of a machine whose steps may be disabled, for any kind of state and step. */
module Runs {
  import opened Wrappers

  /** Takes the steps one after another; None when some step is not enabled. */
  function Exec<S, A>(next: (S, A) -> Option<S>, s: S, steps: seq<A>): Option<S>
    decreases |steps|
  {
    if steps == [] then Some(s)
    else
      var mid := next(s, steps[0]);
      if mid.None? then None else Exec(next, mid.value, steps[1..])
  }

  lemma {:induction false} ExecAppend<S, A>(next: (S, A) -> Option<S>, s: S, a: seq<A>, b: seq<A>)
    ensures Exec(next, s, a + b) == (if Exec(next, s, a).None? then None else Exec(next, Exec(next, s, a).value, b))
    decreases |a|
  {
    if a == [] {
      assert a + b == b;
    } else {
      assert (a + b)[0] == a[0] && (a + b)[1..] == a[1..] + b;
      if next(s, a[0]).Some? {
        ExecAppend(next, next(s, a[0]).value, a[1..], b);
      }
    }
  }

  lemma {:induction false} ExecOne<S, A>(next: (S, A) -> Option<S>, s: S, a: A)
    ensures Exec(next, s, [a]) == next(s, a)
  {
    assert [a][1..] == [];
  }

  lemma {:induction false} ExecTwo<S, A>(next: (S, A) -> Option<S>, s: S, a: A, b: A)
    requires next(s, a).Some?
    ensures Exec(next, s, [a, b]) == next(next(s, a).value, b)
  {
    assert [a, b][1..] == [b];
    ExecOne(next, next(s, a).value, b);
  }

  lemma {:induction false} ExecThree<S, A>(next: (S, A) -> Option<S>, s: S, a: A, b: A, c: A)
    requires next(s, a).Some? && next(next(s, a).value, b).Some?
    ensures Exec(next, s, [a, b, c]) == next(next(next(s, a).value, b).value, c)
  {
    assert [a, b, c][1..] == [b, c];
    ExecTwo(next, next(s, a).value, b, c);
  }

  /** What every step keeps, every run keeps. */
  lemma {:induction false} RunKeeps<S(!new), A(!new)>(next: (S, A) -> Option<S>, inv: S -> bool, s: S, steps: seq<A>)
    requires inv(s) && Exec(next, s, steps).Some?
    requires forall u, a :: inv(u) && next(u, a).Some? ==> inv(next(u, a).value)
    ensures inv(Exec(next, s, steps).value)
    decreases |steps|
  {
    if steps != [] {
      RunKeeps(next, inv, next(s, steps[0]).value, steps[1..]);
    }
  }
}
