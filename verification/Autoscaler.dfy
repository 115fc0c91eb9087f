/**
 The autoscaler's arithmetic, internal/autoscaler/policy.go, over the reals, and when
 repeated evaluation under a constant total load comes to rest.
 */
module Autoscaler {

  datatype Action = NONE | SCALE_UP | SCALE_DOWN

  datatype Decision = Decision(replicas: int, action: Action)

  const DEFAULT_TOLERANCE := 0.10

  function Ceiling(x: real): (c: int)
    ensures c as real - 1.0 < x <= c as real
  {
    -((-x).Floor)
  }

  function Abs(x: real): real {
    if x < 0.0 then -x else x
  }

  function CalculateDesiredReplicas(current: int, metric: real, target: real, min: int, max: int,
                                    tolerance: real): Decision {
    var lo := if min <= 0 then 1 else min;
    var hi := if max < lo then lo else max;
    var n := if current <= 0 then lo else current;
    if target <= 0.0 then Decision(n, NONE)
    else
      var tol := if tolerance <= 0.0 then DEFAULT_TOLERANCE else tolerance;
      Decide(n, metric / target, lo, hi, tol)
  }

  /** The decision for a metric that is `ratio` times its target. */
  function Decide(n: int, ratio: real, lo: int, hi: int, tol: real): Decision {
    if Abs(ratio - 1.0) <= tol then Decision(n, NONE)
    else if ratio > 1.0 then
      var wanted := Ceiling(n as real * ratio);
      var raised := if wanted <= n then n + 1 else wanted;
      var capped := if raised > hi then hi else raised;
      if capped == n then Decision(n, NONE) else Decision(capped, SCALE_UP)
    else
      var wanted := (n as real * ratio).Floor;
      var lowered := if wanted >= n then n - 1 else wanted;
      var floored := if lowered < lo then lo else lowered;
      if floored == n then Decision(n, NONE) else Decision(floored, SCALE_DOWN)
  }

  /** For any arguments whatever, the result stays within the bounds if the current count is. */
  lemma {:induction false} StaysWithinBounds(current: int, metric: real, target: real, min: int, max: int,
                                             tolerance: real)
    requires 1 <= min <= current <= max
    ensures min <= CalculateDesiredReplicas(current, metric, target, min, max, tolerance).replicas <= max
  {
  }

  /**
   What stands in for an unusable argument: one for a minimum that is not positive, the minimum for
   a maximum below it and for a count that is not positive, a tenth for a tolerance that is not
   positive.  A target that is not positive means no action.
   */
  lemma {:induction false} DefaultsStandIn(current: int, metric: real, target: real, min: int, max: int, tolerance: real)
    ensures var d := CalculateDesiredReplicas(current, metric, target, min, max, tolerance);
            && (min <= 0 ==> d == CalculateDesiredReplicas(current, metric, target, 1, max, tolerance))
            && (1 <= min && max < min ==> d == CalculateDesiredReplicas(current, metric, target, min, min, tolerance))
            && (1 <= min && current <= 0 ==> d == CalculateDesiredReplicas(min, metric, target, min, max, tolerance))
            && (tolerance <= 0.0 ==> d == CalculateDesiredReplicas(current, metric, target, min, max, 0.10))
            && (1 <= current && target <= 0.0 ==> d == Decision(current, NONE))
  {
  }

  /**
   A count above the maximum is brought down to it, or to the minimum's side, unless the metric is
   within tolerance; under a high metric the step down to the maximum is called SCALE_UP.
   */
  lemma {:induction false} AboveMaximum(current: int, metric: real, target: real, min: int, max: int, tolerance: real)
    requires 1 <= min <= max < current && target > 0.0 && tolerance > 0.0
    ensures var d, ratio := CalculateDesiredReplicas(current, metric, target, min, max, tolerance), metric / target;
            && (ratio > 1.0 + tolerance ==> d == Decision(max, SCALE_UP))
            && (1.0 - tolerance <= ratio <= 1.0 + tolerance ==> d == Decision(current, NONE))
            && (ratio < 1.0 - tolerance ==> d.action == SCALE_DOWN && min <= d.replicas < current)
  {
  }

  // ----- constant total load

  /** A policy with sensible bounds, a total load and the load one replica should carry. */
  datatype Setting = Setting(load: real, target: real, min: int, max: int, tolerance: real)

  ghost predicate Valid(s: Setting) {
    s.target > 0.0 && s.load >= 0.0 && 1 <= s.min <= s.max
  }

  function Tolerance(s: Setting): (t: real)
    ensures t > 0.0
  {
    if s.tolerance <= 0.0 then DEFAULT_TOLERANCE else s.tolerance
  }

  /** The replica count that would carry the load exactly. */
  ghost function Ideal(s: Setting): real
    requires Valid(s)
  {
    s.load / s.target
  }

  /** One evaluation when `n` replicas share the load evenly. */
  ghost function Evaluate(s: Setting, n: int): Decision
    requires Valid(s) && s.min <= n <= s.max
  {
    CalculateDesiredReplicas(n, s.load / n as real, s.target, s.min, s.max, s.tolerance)
  }

  /** `n` replicas are within tolerance of carrying the load. */
  ghost predicate Near(x: real, n: int, tol: real) {
    -(tol * n as real) <= x - n as real <= tol * n as real
  }

  /** What one evaluation comes to: stay, or go to the nearest whole count on the other side, within bounds. */
  ghost function NextCount(x: real, n: int, min: int, max: int, near: bool): int {
    if near then n
    else if x > n as real then (if Ceiling(x) > max then max else Ceiling(x))
    else if x.Floor < min then min else x.Floor
  }

  ghost predicate NearIdeal(s: Setting, n: int)
    requires Valid(s)
  {
    Near(Ideal(s), n, Tolerance(s))
  }

  lemma {:induction false} Scaled(load: real, target: real, n: real)
    requires target > 0.0 && n > 0.0
    ensures n * (load / n / target) == load / target
  {
    var q := load / n / target;
    assert load / n == q * target;
    assert load == (q * target) * n;
    assert load / target == q * n;
  }

  lemma {:induction false} RatioBand(x: real, ratio: real, n: real, tol: real)
    requires n > 0.0 && n * ratio == x
    ensures -(tol * n) <= x - n <= tol * n <==> Abs(ratio - 1.0) <= tol
    ensures x > n <==> ratio > 1.0
  {
    assert x - n == (ratio - 1.0) * n;
    SignKept(ratio - 1.0, n);
    SignKept(tol - (ratio - 1.0), n);
    SignKept(tol + (ratio - 1.0), n);
    assert (tol - (ratio - 1.0)) * n == tol * n - (x - n);
    assert (tol + (ratio - 1.0)) * n == tol * n + (x - n);
  }

  lemma {:induction false} SignKept(a: real, n: real)
    requires n > 0.0
    ensures a >= 0.0 <==> a * n >= 0.0
    ensures a > 0.0 <==> a * n > 0.0
  {
    if a > 0.0 {
      assert a * n > 0.0;
    } else if a < 0.0 {
      assert (-a) * n > 0.0;
    }
  }

  /** A decision in whole counts, once what the ratio says is known. */
  lemma {:induction false} DecideIsNextCount(x: real, n: int, ratio: real, min: int, max: int, tol: real, near: bool)
    requires n as real * ratio == x && min <= n <= max
    requires near <==> Abs(ratio - 1.0) <= tol
    requires x > n as real <==> ratio > 1.0
    requires !near ==> x != n as real
    ensures Decide(n, ratio, min, max, tol) == Moving(n, NextCount(x, n, min, max, near))
  {
  }

  function Moving(n: int, m: int): Decision {
    Decision(m, if m == n then NONE else if m > n then SCALE_UP else SCALE_DOWN)
  }

  /** The source's computation, for an even share of a constant load, is NextCount. */
  lemma {:induction false} EvaluateIsNextCount(s: Setting, n: int)
    requires Valid(s) && s.min <= n <= s.max
    ensures Evaluate(s, n) == Moving(n, NextCount(Ideal(s), n, s.min, s.max, NearIdeal(s, n)))
    ensures s.min <= NextCount(Ideal(s), n, s.min, s.max, NearIdeal(s, n)) <= s.max
  {
    var x, ratio := Ideal(s), s.load / n as real / s.target;
    Scaled(s.load, s.target, n as real);
    RatioBand(x, ratio, n as real, Tolerance(s));
    ExactIsNear(x, n, Tolerance(s));
    DecideIsNextCount(x, n, ratio, s.min, s.max, Tolerance(s), NearIdeal(s, n));
  }

  lemma {:induction false} ExactIsNear(x: real, n: int, tol: real)
    requires tol > 0.0 && n >= 0
    ensures x == n as real ==> Near(x, n, tol)
  {
    BandGrows(tol, 0, n);
  }

  // ----- coming to rest

  ghost predicate AtRest(s: Setting, n: int)
    requires Valid(s) && s.min <= n <= s.max
  {
    Evaluate(s, n).action == NONE
  }

  ghost function After(s: Setting, n: int, steps: nat): (m: int)
    requires Valid(s) && s.min <= n <= s.max
    ensures s.min <= m <= s.max
  {
    if steps == 0 then n else
      var before := After(s, n, steps - 1);
      EvaluateIsNextCount(s, before);
      Evaluate(s, before).replicas
  }

  /** At rest, every later evaluation returns the same count and no action. */
  lemma {:induction false} RestIsForever(s: Setting, n: int, steps: nat)
    requires Valid(s) && s.min <= n <= s.max && AtRest(s, n)
    ensures After(s, n, steps) == n
  {
    if steps > 0 {
      RestIsForever(s, n, steps - 1);
      EvaluateIsNextCount(s, n);
    }
  }

  /** The ideal count is fractional and both whole counts around it are allowed and out of tolerance. */
  ghost predicate Oscillates(s: Setting)
    requires Valid(s)
  {
    var x := Ideal(s);
    && s.min <= x.Floor < Ceiling(x) <= s.max
    && !Near(x, x.Floor, Tolerance(s)) && !Near(x, Ceiling(x), Tolerance(s))
  }

  lemma {:induction false} BandGrows(tol: real, a: int, b: int)
    requires tol > 0.0 && a <= b
    ensures tol * a as real <= tol * b as real
  {
    assert tol * (b as real - a as real) >= 0.0;
  }

  /** Where the counts around the ideal one oscillate, no allowed count is at rest. */
  lemma {:induction false} OscillationHasNoRest(s: Setting, n: int)
    requires Valid(s) && s.min <= n <= s.max && Oscillates(s)
    ensures !AtRest(s, n)
  {
    var x, tol := Ideal(s), Tolerance(s);
    if n <= x.Floor {
      UnderBand(x, tol, x.Floor, n);
    } else {
      OverBand(x, tol, Ceiling(x), n);
    }
    EvaluateIsNextCount(s, n);
  }

  /** Too few replicas by more than the tolerance: fewer are too few as well. */
  lemma {:induction false} UnderBand(x: real, tol: real, f: int, n: int)
    requires tol > 0.0 && 0 <= n <= f && f as real <= x && !Near(x, f, tol)
    ensures !Near(x, n, tol) && x > n as real
  {
    BandGrows(tol, n, f);
    BandGrows(tol, 0, f);
  }

  /** Too many replicas by more than the tolerance: more are too many as well. */
  lemma {:induction false} OverBand(x: real, tol: real, c: int, n: int)
    requires tol > 0.0 && 0 < c <= n && x <= c as real && x >= 0.0 && !Near(x, c, tol)
    ensures !Near(x, n, tol) && x < n as real
  {
    BandGrows(tol, 0, c);
    assert c as real - x > tol * c as real;
    assert (1.0 - tol) * c as real > 0.0;
    SignKept(1.0 - tol, c as real);
    assert (1.0 - tol) * (n as real - c as real) >= 0.0;
    assert n as real - x > tol * n as real;
  }

  /** Otherwise two evaluations suffice. */
  lemma {:induction false} TwoStepsSuffice(s: Setting, n: int)
    requires Valid(s) && s.min <= n <= s.max && !Oscillates(s)
    ensures AtRest(s, After(s, n, 2))
  {
    var m, k := After(s, n, 1), After(s, n, 2);
    assert After(s, n, 0) == n;
    EvaluateIsNextCount(s, n);
    EvaluateIsNextCount(s, m);
    EvaluateIsNextCount(s, k);
  }

  ghost predicate RestsAfter(s: Setting, n: int, steps: nat)
    requires Valid(s) && s.min <= n <= s.max
  {
    AtRest(s, After(s, n, steps))
  }

  lemma {:induction false} NeverRests(s: Setting, n: int, steps: nat)
    requires Valid(s) && s.min <= n <= s.max && Oscillates(s)
    ensures !RestsAfter(s, n, steps)
  {
    OscillationHasNoRest(s, After(s, n, steps));
  }

  /**
   Evaluation from any allowed count comes to rest if and only if the setting does not oscillate,
   and then within two steps.
   */
  lemma {:induction false} RestsExactlyWhenNotOscillating(s: Setting, n: int)
    requires Valid(s) && s.min <= n <= s.max
    ensures (exists steps: nat :: RestsAfter(s, n, steps)) <==> !Oscillates(s)
    ensures !Oscillates(s) ==> RestsAfter(s, n, 2)
  {
    if steps: nat :| RestsAfter(s, n, steps) {
      if Oscillates(s) {
        NeverRests(s, n, steps);
      }
    }
    if !Oscillates(s) {
      TwoStepsSuffice(s, n);
      assert RestsAfter(s, n, 2);
    }
  }

  /** With enough replicas for the tolerance to span a whole one, a single evaluation suffices. */
  lemma {:induction false} OneStepSuffices(s: Setting, n: int)
    requires Valid(s) && s.min <= n <= s.max
    requires Ideal(s).Floor as real >= 1.0 / Tolerance(s)
    ensures AtRest(s, After(s, n, 1))
  {
    var x := Ideal(s);
    BothNear(x, Tolerance(s));
    assert After(s, n, 0) == n;
    EvaluateIsNextCount(s, n);
    EvaluateIsNextCount(s, After(s, n, 1));
  }

  lemma {:induction false} BothNear(x: real, tol: real)
    requires x >= 0.0 && tol > 0.0 && x.Floor as real >= 1.0 / tol
    ensures Near(x, x.Floor, tol) && Near(x, Ceiling(x), tol)
  {
    var f, c := x.Floor, Ceiling(x);
    Reciprocal(tol, f as real);
    BandGrows(tol, f, c);
    NearWithin(x, f, tol * f as real, tol);
    NearWithin(x, c, tol * c as real, tol);
  }

  lemma {:induction false} NearWithin(x: real, n: int, band: real, tol: real)
    requires band == tol * n as real && band >= 1.0 && -1.0 <= x - n as real <= 1.0
    ensures Near(x, n, tol)
  {
  }

  lemma {:induction false} Reciprocal(tol: real, f: real)
    requires tol > 0.0 && f >= 1.0 / tol
    ensures tol * f >= 1.0
  {
    assert tol * (1.0 / tol) == 1.0;
    assert tol * (f - 1.0 / tol) >= 0.0;
  }

  /** A load worth one and a half replicas makes the autoscaler alternate between one and two for ever. */
  lemma {:induction false} OneAndAHalfAlternates()
    ensures var s := Setting(105.0, 70.0, 1, 10, 0.10);
            Valid(s) && Ideal(s) == 1.5 && Oscillates(s) && After(s, 1, 1) == 2 && After(s, 2, 1) == 1
  {
    var s := Setting(105.0, 70.0, 1, 10, 0.10);
    assert Ideal(s) == 1.5;
    assert (1.5).Floor == 1 && Ceiling(1.5) == 2;
    EvaluateIsNextCount(s, 1);
    EvaluateIsNextCount(s, 2);
    assert After(s, 1, 0) == 1 && After(s, 2, 0) == 2;
  }
}
