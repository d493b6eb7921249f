/** Integer square root: the Newton iteration of `sqrt` in math.rs (and
    its copy in liquidity.rs), proved to compute floor(sqrt(x)). */
module Math {
  import opened Runtime

  /** floor(sqrt(x)), defined independently of Newton's method: the root
      of x - 1, moved up by one when x reaches the next square. */
  function FloorSqrt(x: nat): (r: nat)
    ensures r * r <= x < (r + 1) * (r + 1)
    ensures r == 0 <==> x == 0
  {
    if x == 0 then 0
    else
      var s := FloorSqrt(x - 1);
      if (s + 1) * (s + 1) <= x then
        assert (s + 1) * (s + 1) < (s + 2) * (s + 2) by { SquareStrictlyMonotone(s + 1, s + 2); }
        s + 1
      else s
  }

  lemma SquareMonotone(a: nat, b: nat)
    requires a <= b
    ensures a * a <= b * b
  {
    calc {
      a * a;
    <= { MulMonotone(a, a, b); }
      a * b;
    <= { MulMonotone(b, a, b); }
      b * b;
    }
  }

  lemma SquareStrictlyMonotone(a: nat, b: nat)
    requires a < b
    ensures a * a < b * b
  {
    SquareMonotone(a, b - 1);
    assert b * b == (b - 1) * (b - 1) + 2 * b - 1;
  }

  lemma MulMonotone(c: nat, a: nat, b: nat)
    requires a <= b
    ensures c * a <= c * b
  {
    assert c * b == c * a + c * (b - a);
  }

  /** Cancelling a positive factor. */
  lemma MulCancel(c: nat, a: nat, b: nat)
    requires c > 0 && a * c <= b * c
    ensures a <= b
  {
    if a > b {
      assert a * c == b * c + (a - b) * c;
      MulMonotone(c, 1, a - b);
    }
  }

  /** (a * b) * c == b * (a * c) and the like, named so a proof can use them. */
  lemma Reassociate(a: nat, b: nat, c: nat)
    ensures (a * b) * c == b * (a * c) == (a * c) * b == a * (b * c)
  {
  }

  /** q = floor(x / d) satisfies q * d <= x < (q + 1) * d. */
  lemma FloorDivBounds(x: nat, d: nat)
    requires d > 0
    ensures d * (x / d) <= x < d * (x / d + 1)
  {
    assert x == (x / d) * d + x % d;
  }

  /** Division is determined by any quotient and remainder that fit. */
  lemma DivModUnique(x: nat, n: nat, q: nat, r: nat)
    requires 0 <= r < n && x == q * n + r
    ensures x / n == q && x % n == r
  {
    var q', r' := x / n, x % n;
    assert x == q' * n + r';
    if q' < q {
      MulMonotone(n, q' + 1, q);
    } else if q < q' {
      MulMonotone(n, q + 1, q');
    }
  }

  /** A larger divisor gives a smaller (or equal) whole quotient. */
  lemma DivAntitone(x: nat, d: nat, d': nat)
    requires 0 < d <= d'
    ensures x / d' <= x / d
  {
    var q, q' := x / d, x / d';
    FloorDivBounds(x, d);
    FloorDivBounds(x, d');
    MulMonotone(q', d, d');
    if q' > q {
      MulMonotone(d, q + 1, q');
    }
  }

  /** The whole quotient of natural numbers is a natural number no larger
      than the dividend. */
  lemma QuotientIsNat(x: nat, d: nat)
    requires d > 0
    ensures 0 <= x / d <= x
  {
    var q := x / d;
    assert x == q * d + x % d;
    MulMonotone(q, 1, d);
  }

  /** Only one number has the floor-square-root property. */
  lemma FloorSqrtUnique(x: nat, y: nat)
    requires y * y <= x < (y + 1) * (y + 1)
    ensures y == FloorSqrt(x)
  {
    var r := FloorSqrt(x);
    if y < r {
      SquareMonotone(y + 1, r);
    } else if r < y {
      SquareMonotone(r + 1, y);
    }
  }

  /** a * b <= ((a + b) / 2)^2, for integers and a bound m on the half sum. */
  lemma ProductBelowSquare(a: nat, b: nat, m: nat)
    requires a + b <= 2 * m
    ensures a * b <= m * m
  {
    var d: int := a - b;
    assert (a + b) * (a + b) == 4 * (a * b) + d * d;
    assert d * d >= 0;
    SquareMonotone(a + b, 2 * m);
    assert (2 * m) * (2 * m) == 4 * (m * m);
  }

  /** One Newton step `(x / z + z) / 2` from any positive z never lands
      below floor(sqrt(x)). */
  lemma NewtonStepStaysAbove(x: nat, z: nat)
    requires z > 0
    ensures x < ((x / z + z) / 2 + 1) * ((x / z + z) / 2 + 1)
  {
    var q := x / z;
    var n := (q + z) / 2;
    assert x == q * z + x % z;
    assert x < (q + 1) * z;
    ProductBelowSquare(q + 1, z, n + 1);
  }

  /** When a Newton step from y does not go below y, y is at most floor(sqrt(x)). */
  lemma NewtonStepStops(x: nat, y: nat)
    requires y > 0 && (x / y + y) / 2 >= y
    ensures y * y <= x
  {
    var q := x / y;
    assert q >= y;
    assert x == q * y + x % y;
    MulMonotone(y, y, q);
  }

  /** The sum `x / z + z` stays within `x + 1` for 1 <= z <= x. */
  lemma NewtonSumBound(x: nat, z: nat)
    requires 0 < z <= x
    ensures x / z + z <= x + 1
  {
    var q := x / z;
    assert q * z <= x by { assert x == q * z + x % z; }
    assert q >= 1 by {
      assert x == q * z + x % z;
      assert x % z < z;
    }
    var a: nat, b: nat := q - 1, z - 1;
    assert q * z == a * b + a + b + 1;
  }

  /** The starting point y = x, z = (x + 1) / 2 is at or above floor(sqrt(x)). */
  lemma NewtonStart(x: nat)
    ensures x < (x + 1) * (x + 1)
    ensures x < ((x + 1) / 2 + 1) * ((x + 1) / 2 + 1)
    ensures (x + 1) / 2 < x <==> x > 1
  {
    MulMonotone(x + 1, 1, x + 1);
    NewtonStepStaysAbove(x, 1);
  }

  /** An estimate at or above floor(sqrt(x)) of a positive x is positive:
      the divisor of the Newton step is never zero. */
  lemma PositiveAboveRoot(x: nat, z: nat)
    requires 0 < x < (z + 1) * (z + 1)
    ensures 0 < z
  {
    assert (z + 1) * (z + 1) == z * z + 2 * z + 1;
  }

  /** When the loop stops (z >= y), y is at most floor(sqrt(x)). */
  lemma NewtonExit(x: nat, y: nat, z: nat)
    requires y <= x && z >= y
    requires (y == x && z == (x + 1) / 2) || (0 < y && z == (x / y + y) / 2)
    ensures y * y <= x
  {
    if y == x && z == (x + 1) / 2 {
      assert x <= 1;
      assert y * y <= x;
    } else {
      NewtonStepStops(x, y);
    }
  }

  /** What the loop of `sqrt` keeps: y and z are at or above floor(sqrt(x)),
      y is at most x, and z is the Newton step from y (or, before the first
      step, the starting point (x + 1) / 2 beside y = x). */
  ghost predicate NewtonInv(x: nat, y: nat, z: nat)
  {
    && y <= x
    && x < (y + 1) * (y + 1)
    && x < (z + 1) * (z + 1)
    && ((y == x && z == (x + 1) / 2) || (0 < y && z == (x / y + y) / 2))
  }

  /** One turn of the loop: when z < y, the divisor z is positive, the sum
      `x / z + z` cannot overflow, and moving to (z, (x / z + z) / 2) keeps
      the invariant. */
  lemma NewtonStepKeeps(x: nat, y: nat, z: nat)
    requires NewtonInv(x, y, z) && z < y
    ensures 0 < z <= x && 0 <= x / z <= x && x / z + z <= x + 1
    ensures NewtonInv(x, z, (x / z + z) / 2)
  {
    PositiveAboveRoot(x, z);
    NewtonSumBound(x, z);
    NewtonStepStaysAbove(x, z);
  }

  /** `sqrt` of math.rs (and of liquidity.rs, which carries an identical
      copy): Newton's iteration from (x + 1) / 2, stopping when the
      estimate no longer decreases. `x + 1` must not overflow u128. */
  method Sqrt(x: u128) returns (y: u128)
    requires x + 1 < U128_LIMIT
    ensures y * y <= x < (y + 1) * (y + 1)
    ensures y == FloorSqrt(x)
  {
    var xPlusOne: u128 := x + 1;
    var z: u128 := xPlusOne / 2;
    y := x;
    NewtonStart(x);
    while z < y
      invariant NewtonInv(x, y, z)
      decreases y
    {
      NewtonStepKeeps(x, y, z);
      y := z;
      var quotient: u128 := x / z;
      var sum: u128 := quotient + z;
      z := sum / 2;
    }
    NewtonExit(x, y, z);
    FloorSqrtUnique(x, y);
  }

  /** The largest product of two u64 values leaves room for `x + 1` in u128. */
  lemma U64ProductFits(a: u64, b: u64)
    ensures a * b + 1 < U128_LIMIT
  {
    var m := U64_LIMIT - 1;
    MulMonotone(a, b, m);
    MulMonotone(m, a, m);
    assert a * b <= m * m;
    assert m * m + 1 < U128_LIMIT;
  }

  /** ... and its integer square root fits back into u64. */
  lemma U64ProductFitsSqrt(a: u64, b: u64)
    ensures a * b + 1 < U128_LIMIT
    ensures FloorSqrt(a * b) < U64_LIMIT
  {
    U64ProductFits(a, b);
    var r := FloorSqrt(a * b);
    assert U64_LIMIT * U64_LIMIT == U128_LIMIT;
    if r >= U64_LIMIT {
      SquareMonotone(U64_LIMIT, r);
    }
  }
}
