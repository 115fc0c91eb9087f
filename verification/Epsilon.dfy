/**
 The utilization tie-break of internal/scheduler/rank.go compares two ratios with a
 tolerance of 1e-9.  Over the rationals, this module says for which pairs of capacities that
 test is the exact comparison of the ratios.
 */
module Epsilon {
  const BILLION := 1_000_000_000

  function Abs(x: real): real {
    if x < 0.0 then -x else x
  }

  /** The source's test: the two utilization ratios differ by more than 1e-9. */
  predicate FarApart(a1: int, c1: int, a2: int, c2: int)
    requires c1 > 0 && c2 > 0
  {
    Abs(a1 as real / c1 as real - a2 as real / c2 as real) > 0.000000001
  }

  function AbsInt(x: int): nat {
    if x < 0 then -x else x
  }

  lemma {:induction false} FarApartScaled(x1: real, y1: real, x2: real, y2: real, n: real, p: real)
    requires y1 > 0.0 && y2 > 0.0 && n == x1 * y2 - x2 * y1 && p == y1 * y2
    ensures Abs(x1 / y1 - x2 / y2) > 0.000000001 <==> Abs(n) > 0.000000001 * p
  {
    var d := x1 / y1 - x2 / y2;
    Difference(x1, y1, x2, y2);
    assert p > 0.0;
    assert d * p == n;
    AbsScales(d, p);
    assert Abs(d) * p == Abs(n);
    ScaleCompare(Abs(d), 0.000000001, p);
    assert Abs(d) > 0.000000001 <==> Abs(d) * p > 0.000000001 * p;
  }

  lemma {:induction false} RealOfProduct(a: int, b: int)
    ensures (a * b) as real == a as real * b as real
  {
  }

  /** The test in whole numbers: |a1 c2 - a2 c1| times 10^9 exceeds c1 c2. */
  lemma {:induction false} FarApartInWholeNumbers(a1: int, c1: int, a2: int, c2: int)
    requires c1 > 0 && c2 > 0
    ensures FarApart(a1, c1, a2, c2) <==> AbsInt(a1 * c2 - a2 * c1) * BILLION > c1 * c2
  {
    var n, p := a1 * c2 - a2 * c1, c1 * c2;
    RealOfProduct(a1, c2);
    RealOfProduct(a2, c1);
    RealOfProduct(c1, c2);
    FarApartScaled(a1 as real, c1 as real, a2 as real, c2 as real, n as real, p as real);
    CompareAsReals(n, p);
  }

  lemma {:induction false} CompareAsReals(n: int, p: int)
    ensures Abs(n as real) > 0.000000001 * p as real <==> AbsInt(n) * BILLION > p
  {
    var m := AbsInt(n);
    assert Abs(n as real) == m as real;
    assert m as real > 0.000000001 * p as real <==> m as real * 1000000000.0 > p as real;
    assert (m * BILLION) as real == m as real * 1000000000.0;
  }

  lemma {:induction false} Difference(x1: real, y1: real, x2: real, y2: real)
    requires y1 > 0.0 && y2 > 0.0
    ensures (x1 / y1 - x2 / y2) * (y1 * y2) == x1 * y2 - x2 * y1
  {
    var q1, q2 := x1 / y1, x2 / y2;
    assert q1 * y1 == x1 && q2 * y2 == x2;
    assert (q1 - q2) * (y1 * y2) == (q1 * y1) * y2 - (q2 * y2) * y1;
  }

  lemma {:induction false} AbsScales(d: real, p: real)
    requires p > 0.0
    ensures Abs(d) * p == Abs(d * p)
  {
    if d < 0.0 {
      assert d * p < 0.0;
    } else {
      assert d * p >= 0.0;
    }
  }

  lemma {:induction false} ScaleCompare(x: real, y: real, p: real)
    requires p > 0.0
    ensures x > y <==> x * p > y * p
  {
    if x > y {
      assert (x - y) * p > 0.0;
    } else {
      assert (y - x) * p >= 0.0;
    }
  }

  lemma {:induction false} ProductMonotone(x: int, y: int, z: int)
    ensures x <= y && z >= 0 ==> x * z <= y * z
  {
    if x <= y && z >= 0 {
      assert (y - x) * z >= 0;
    }
  }

  // ----- greatest common divisor

  function Gcd(a: nat, b: nat): (g: nat)
    requires a > 0 || b > 0
    ensures g > 0
    decreases b
  {
    if b == 0 then a else Gcd(b, a % b)
  }

  lemma {:induction false} FactorOut(t: int, u: int, v: int, g: int)
    ensures t * (u * g) + v * g == (t * u + v) * g
  {
    assert t * (u * g) == (t * u) * g;
  }

  lemma {:induction false} Recombine(x: int, y: int, t: int, b: int, r: int)
    ensures y * (t * b + r) + (x - t * y) * b == x * b + y * r
  {
    assert y * (t * b + r) == y * (t * b) + y * r;
    assert (x - t * y) * b == x * b - (t * y) * b;
    assert y * (t * b) == (t * y) * b;
  }

  /** The greatest common divisor divides both numbers and is an integer combination of them. */
  lemma {:induction false} Bezout(a: nat, b: nat) returns (p: nat, q: nat, x: int, y: int)
    requires a > 0 || b > 0
    ensures a == p * Gcd(a, b) && b == q * Gcd(a, b)
    ensures x * a + y * b == Gcd(a, b)
    decreases b
  {
    if b == 0 {
      p, q, x, y := 1, 0, 1, 0;
    } else {
      var t, r := a / b, a % b;
      assert a == t * b + r;
      var p', q', x', y' := Bezout(b, r);
      p, q, x, y := BezoutStep(t, b, r, Gcd(b, r), p', q', x', y');
    }
  }

  lemma {:induction false} BezoutStep(t: nat, b: nat, r: nat, g: nat, p': nat, q': nat, x': int, y': int)
    returns (p: nat, q: nat, x: int, y: int)
    requires b == p' * g && r == q' * g && x' * b + y' * r == g
    ensures t * b + r == p * g && b == q * g
    ensures x * (t * b + r) + y * b == g
  {
    FactorOut(t, p', q', g);
    Recombine(x', y', t, b, r);
    ProductMonotone(0, t, p');
    p, q, x, y := t * p' + q', p', y', x' - t * y';
  }

  // ----- exactness

  /** For workloads within capacity, the tolerance test says "different" exactly when the ratios are. */
  ghost predicate Exact(c1: int, c2: int)
    requires c1 > 0 && c2 > 0
  {
    forall a1, a2 :: 0 <= a1 <= c1 && 0 <= a2 <= c2 ==> (FarApart(a1, c1, a2, c2) <==> a1 * c2 != a2 * c1)
  }

  /** Different ratios are at least Gcd/(c1 c2) apart. */
  lemma {:induction false} GapIsAtLeastGcd(a1: int, c1: int, a2: int, c2: int)
    requires c1 > 0 && c2 > 0 && a1 * c2 != a2 * c1
    ensures AbsInt(a1 * c2 - a2 * c1) >= Gcd(c1, c2)
  {
    var p, q, x, y := Bezout(c1, c2);
    var g := Gcd(c1, c2);
    var m := a1 * q - a2 * p;
    FactorOut(a1, q, 0, g);
    FactorOut(a2, p, 0, g);
    assert a1 * c2 - a2 * c1 == m * g;
    MultipleIsFar(m, g);
  }

  lemma {:induction false} MultipleIsFar(m: int, g: nat)
    requires m * g != 0
    ensures AbsInt(m * g) >= g
  {
    ProductMonotone(1, m, g);
    ProductMonotone(m, -1, g);
    if m == 0 {
      assert false;
    }
  }

  /** When the product is below 10^9 times the greatest common divisor, the test is exact, for any workloads. */
  lemma {:induction false} BelowThresholdIsExact(a1: int, c1: int, a2: int, c2: int)
    requires c1 > 0 && c2 > 0 && c1 * c2 < BILLION * Gcd(c1, c2)
    ensures FarApart(a1, c1, a2, c2) <==> a1 * c2 != a2 * c1
  {
    FarApartInWholeNumbers(a1, c1, a2, c2);
    if a1 * c2 != a2 * c1 {
      GapIsAtLeastGcd(a1, c1, a2, c2);
    }
  }

  /** Shifting a solution of y c2 + x c1 == g by k times (p, q), where q c1 == p c2. */
  lemma {:induction false} Shift(x: int, y: int, k: int, p: int, q: int, c1: int, c2: int)
    requires q * c1 == p * c2
    ensures (y - k * p) * c2 - (-x - k * q) * c1 == x * c1 + y * c2
  {
    assert (y - k * p) * c2 == y * c2 - (k * p) * c2;
    assert (-x - k * q) * c1 == -(x * c1) - (k * q) * c1;
    assert (k * p) * c2 == k * (p * c2) && (k * q) * c1 == k * (q * c1);
  }

  /** If a1 is a workload within its capacity, so is the a2 that comes closest to it. */
  lemma {:induction false} SecondWithinCapacity(a1: int, c1: int, a2: int, c2: int, g: int)
    requires 1 <= a1 <= c1 && c2 > 0 && 0 < g <= c2 && a1 * c2 - a2 * c1 == g
    ensures 0 <= a2 <= c2
  {
    ProductMonotone(1, a1, c2);
    ProductMonotone(a1, c1, c2);
    ProductMonotone(a2, -1, c1);
    ProductMonotone(c2 + 1, a2, c1);
    assert (c2 + 1) * c1 == c1 * c2 + c1;
  }

  /** Some pair of workloads within capacity comes as close as the greatest common divisor allows. */
  lemma {:induction false} ClosestPair(c1: int, c2: int) returns (a1: int, a2: int)
    requires c1 > 0 && c2 > 0
    ensures 0 <= a1 <= c1 && 0 <= a2 <= c2 && a1 * c2 - a2 * c1 == Gcd(c1, c2)
  {
    var p, q, x, y := Bezout(c1, c2);
    var g := Gcd(c1, c2);
    PositiveFactors(p, q, g, c1, c2);
    var k := (y - 1) / p;
    a1, a2 := y - k * p, -x - k * q;
    assert 1 <= a1 <= p by {
      assert y - 1 == k * p + (y - 1) % p;
    }
    Shift(x, y, k, p, q, c1, c2);
    SecondWithinCapacity(a1, c1, a2, c2, g);
  }

  lemma {:induction false} PositiveFactors(p: nat, q: nat, g: nat, c1: int, c2: int)
    requires c1 > 0 && c2 > 0 && c1 == p * g && c2 == q * g
    ensures 1 <= p <= c1 && 1 <= q && 1 <= g <= c2 && q * c1 == p * c2
  {
    assert p != 0 && q != 0 && g != 0;
    assert p * (g - 1) >= 0 && (q - 1) * g >= 0;
    assert q * (p * g) == p * (q * g);
  }

  /** The tolerance test is exact for two capacities if and only if c1 c2 < 10^9 gcd(c1, c2). */
  lemma {:induction false} ExactnessThreshold(c1: int, c2: int)
    requires c1 > 0 && c2 > 0
    ensures Exact(c1, c2) <==> c1 * c2 < BILLION * Gcd(c1, c2)
  {
    if c1 * c2 < BILLION * Gcd(c1, c2) {
      forall a1, a2 | 0 <= a1 <= c1 && 0 <= a2 <= c2
        ensures FarApart(a1, c1, a2, c2) <==> a1 * c2 != a2 * c1
      {
        BelowThresholdIsExact(a1, c1, a2, c2);
      }
    }
    if Exact(c1, c2) {
      var a1, a2 := ClosestPair(c1, c2);
      assert FarApart(a1, c1, a2, c2);
      FarApartInWholeNumbers(a1, c1, a2, c2);
    }
  }

  /** In particular capacities whose product is below 10^9, as when all are at most 31622, are safe. */
  lemma {:induction false} SmallProductIsExact(a1: int, c1: int, a2: int, c2: int)
    requires c1 > 0 && c2 > 0 && c1 * c2 < BILLION
    ensures FarApart(a1, c1, a2, c2) <==> a1 * c2 != a2 * c1
  {
    assert BILLION * Gcd(c1, c2) >= BILLION;
    BelowThresholdIsExact(a1, c1, a2, c2);
  }
}
