/**
 The stable in-place sort behind sort.SliceStable: each element in turn is exchanged with
 its left neighbour while the comparator puts it first.  The comparator is any function, so
 what is said here does not presuppose that it is an order.
 */
module StableSort {

  /** Inserts from the right end, moving past every element that `x` comes before. */
  function Insert<T>(s: seq<T>, x: T, less: (T, T) -> bool): (r: seq<T>)
    ensures |r| == |s| + 1
  {
    if s == [] || !less(x, s[|s| - 1]) then s + [x]
    else Insert(s[..|s| - 1], x, less) + [s[|s| - 1]]
  }

  function Sorted<T>(s: seq<T>, less: (T, T) -> bool): (r: seq<T>)
    ensures |r| == |s|
  {
    if s == [] then [] else Insert(Sorted(s[..|s| - 1], less), s[|s| - 1], less)
  }

  method SortInPlace<T>(a: array<T>, less: (T, T) -> bool)
    modifies a
    ensures a[..] == Sorted(old(a[..]), less)
  {
    ghost var was := a[..];
    var i := 0;
    while i < a.Length
      invariant 0 <= i <= a.Length
      invariant a[..i] == Sorted(was[..i], less)
      invariant a[i..] == was[i..]
    {
      assert a[i] == was[i] && a[i + 1..] == was[i + 1..] by {
        assert a[i] == a[i..][0] && a[i + 1..] == a[i..][1..] && was[i + 1..] == was[i..][1..];
      }
      SortedSnoc(was, i, less);
      SiftDown(a, i, less);
      i := i + 1;
    }
    assert was[..i] == was && a[..i] == a[..];
  }

  lemma {:induction false} SortedSnoc<T>(s: seq<T>, i: nat, less: (T, T) -> bool)
    requires i < |s|
    ensures Sorted(s[..i + 1], less) == Insert(Sorted(s[..i], less), s[i], less)
  {
    assert s[..i + 1][..i] == s[..i];
  }

  /** Moving `x` past one more element. */
  lemma {:induction false} InsertMoves<T>(s: seq<T>, x: T, j: nat, less: (T, T) -> bool)
    requires 0 < j <= |s| && less(x, s[j - 1])
    ensures Insert(s[..j], x, less) + s[j..] == Insert(s[..j - 1], x, less) + s[j - 1..]
  {
    assert s[..j][..j - 1] == s[..j - 1];
    assert [s[j - 1]] + s[j..] == s[j - 1..];
  }

  lemma {:induction false} InsertStops<T>(s: seq<T>, x: T, j: nat, less: (T, T) -> bool)
    requires j <= |s| && (j > 0 ==> !less(x, s[j - 1]))
    ensures Insert(s[..j], x, less) + s[j..] == s[..j] + [x] + s[j..]
  {
  }

  /** Moves a[n] left into the sorted prefix a[..n]. */
  method SiftDown<T>(a: array<T>, n: nat, less: (T, T) -> bool)
    requires n < a.Length
    modifies a
    ensures a[..n + 1] == Insert(old(a[..n]), old(a[n]), less)
    ensures a[n + 1..] == old(a[n + 1..])
  {
    ghost var s, x := a[..n], a[n];
    var j := n;
    assert s[..n] == s && s[n..] == [];
    while j > 0 && less(a[j], a[j - 1])
      invariant 0 <= j <= n
      invariant a[j] == x && forall k :: 0 <= k < j ==> a[k] == s[k]
      invariant forall k :: j < k <= n ==> a[k] == s[k - 1]
      invariant forall k :: n < k < a.Length ==> a[k] == old(a[k])
      invariant Insert(s[..j], x, less) + s[j..] == Insert(s, x, less)
    {
      InsertMoves(s, x, j, less);
      a[j], a[j - 1] := a[j - 1], a[j];
      j := j - 1;
    }
    InsertStops(s, x, j, less);
    assert a[..n + 1] == s[..j] + [x] + s[j..];
  }

  lemma {:induction false} SortedSingleton<T>(s: seq<T>, less: (T, T) -> bool)
    requires |s| <= 1
    ensures Sorted(s, less) == s
  {
    if |s| == 1 {
      assert s[..0] == [];
      assert s == [s[0]];
    }
  }

  lemma {:induction false} InsertIntoPair<T>(p: T, q: T, z: T, less: (T, T) -> bool)
    ensures Insert([p, q], z, less) == if !less(z, q) then [p, q, z] else if !less(z, p) then [p, z, q] else [z, p, q]
  {
    assert [p, q][..1] == [p] && [p][..0] == [];
    assert Insert([p], z, less) == if less(z, p) then [z, p] else [p, z];
  }

  lemma {:induction false} SortedThree<T>(x: T, y: T, z: T, less: (T, T) -> bool)
    ensures Sorted([x, y, z], less) == if less(y, x) then Insert([y, x], z, less) else Insert([x, y], z, less)
  {
    SortedSingleton([x], less);
    assert [x, y, z][..2] == [x, y] && [x, y][..1] == [x];
    assert [x][..0] == [];
    assert Insert([x], y, less) == if less(y, x) then [y, x] else [x, y];
  }

  /** No element comes before its left neighbour. */
  ghost predicate Settled<T>(r: seq<T>, less: (T, T) -> bool) {
    forall i :: 0 < i < |r| ==> !less(r[i], r[i - 1])
  }

  lemma {:induction false} InsertKeepsElements<T>(s: seq<T>, x: T, less: (T, T) -> bool)
    ensures multiset(Insert(s, x, less)) == multiset(s) + multiset{x}
  {
    if s != [] && less(x, s[|s| - 1]) {
      InsertKeepsElements(s[..|s| - 1], x, less);
      assert s == s[..|s| - 1] + [s[|s| - 1]];
    }
  }

  lemma {:induction false} SettledSnoc<T>(r: seq<T>, x: T, less: (T, T) -> bool)
    requires Settled(r, less) && (r == [] || !less(x, r[|r| - 1]))
    ensures Settled(r + [x], less)
  {
  }

  lemma {:induction false} InsertSettles<T(!new)>(s: seq<T>, x: T, less: (T, T) -> bool)
    requires forall v, w :: less(v, w) ==> !less(w, v)
    requires Settled(s, less)
    ensures Settled(Insert(s, x, less), less)
    ensures Insert(s, x, less)[|s|] == x || (s != [] && Insert(s, x, less)[|s|] == s[|s| - 1])
  {
    if s == [] || !less(x, s[|s| - 1]) {
      SettledSnoc(s, x, less);
    } else {
      var front, last := s[..|s| - 1], s[|s| - 1];
      assert Settled(front, less);
      InsertSettles(front, x, less);
      var r := Insert(front, x, less);
      assert r[|front|] == x || r[|front|] == s[|s| - 2];
      SettledSnoc(r, last, less);
    }
  }

  /** For an asymmetric comparator the result is a rearrangement in which no neighbours are out of order. */
  lemma {:induction false} SortedSettles<T(!new)>(s: seq<T>, less: (T, T) -> bool)
    requires forall v, w :: less(v, w) ==> !less(w, v)
    ensures Settled(Sorted(s, less), less)
    ensures multiset(Sorted(s, less)) == multiset(s)
  {
    if s != [] {
      var front, last := s[..|s| - 1], s[|s| - 1];
      assert s == front + [last];
      SortedSettles(front, less);
      InsertSettles(Sorted(front, less), last, less);
      InsertKeepsElements(Sorted(front, less), last, less);
    }
  }
}
