/** Rounding of cent amounts. Tax rates are whole hundredths of a percent, the
    precision of the Numeric(5,2) columns, so a rate of 1925 stands for 19.25 %. */
module Money {

  const SCALE: nat := 10000

  /** Floor of a / m: that many multiples of m fit into a, and no more. */
  function Floor(a: nat, m: nat): (q: nat)
    requires m > 0
    ensures q * m <= a < q * m + m
  {
    assert a / m * m + a % m == a;
    a / m
  }

  /** Tax rounded half up, as the entities compute it. */
  function HalfUp(cents: nat, rate: nat): nat {
    Floor(cents * rate + SCALE / 2, SCALE)
  }

  /** Half up is the whole cent nearest to cents * rate / 10000, and of two equally near ones the higher. */
  lemma HalfUpNearest(cents: nat, rate: nat, q: int)
    ensures q == HalfUp(cents, rate)
       <==> 2 * (cents * rate - q * 10_000) < 10_000 && 2 * (q * 10_000 - cents * rate) <= 10_000
  {
    var a := cents * rate + SCALE / 2;
    if 2 * (cents * rate - q * SCALE) < SCALE && 2 * (q * SCALE - cents * rate) <= SCALE {
      FloorUnique(a, SCALE, q);
    }
  }

  /** Tax with its fraction dropped, as stored rows and invoices compute it. */
  function Truncated(cents: nat, rate: nat): nat {
    Floor(cents * rate, SCALE)
  }

  /** Truncated is the highest whole cent that cents * rate / 10000 reaches. */
  lemma TruncatedBelow(cents: nat, rate: nat, q: int)
    ensures q == Truncated(cents, rate) <==> q * 10_000 <= cents * rate < (q + 1) * 10_000
  {
    if q * SCALE <= cents * rate < q * SCALE + SCALE {
      FloorUnique(cents * rate, SCALE, q);
    }
  }

  /** A quotient is pinned by its bounds. */
  lemma FloorUnique(a: nat, m: nat, q: int)
    requires m > 0
    requires q * m <= a < q * m + m
    ensures Floor(a, m) == q
  {
    AtMostFloor(q, a, m);
    AtMostFloor(q + 1, a, m);
  }

  lemma MulMonotone(x: int, y: int, k: nat)
    requires x <= y
    ensures x * k <= y * k
  {
  }

  lemma Distribute(x: int, y: int, k: int)
    ensures (x + y) * k == x * k + y * k
  {
  }

  lemma SwapFactors(x: int, y: int, z: int)
    ensures x * y * z == x * z * y
  {
  }

  /** q is at most a floor exactly when q multiples fit. */
  lemma AtMostFloor(q: int, a: nat, m: nat)
    requires m > 0
    ensures q <= Floor(a, m) <==> q * m <= a
  {
    var f := Floor(a, m);
    if q <= f {
      MulMonotone(q, f, m);
    } else {
      MulMonotone(f + 1, q, m);
      assert (f + 1) * m == f * m + m;
    }
  }

  /** The two roundings of the same tax differ by at most one cent. */
  lemma HalfUpAboveTruncated(cents: nat, rate: nat)
    ensures 0 <= HalfUp(cents, rate) - Truncated(cents, rate) <= 1
  {
  }

  /** The sum of the entries of xs. */
  function Sum(xs: seq<nat>): nat {
    if xs == [] then 0 else xs[0] + Sum(xs[1..])
  }

  /** Each entry multiplied by k and divided by m, rounded down. */
  function FloorEach(xs: seq<nat>, k: nat, m: nat): (ys: seq<nat>)
    requires m > 0
    ensures |ys| == |xs|
  {
    if xs == [] then [] else [Floor(k * xs[0], m)] + FloorEach(xs[1..], k, m)
  }

  /** Rounding down share by share loses less than one unit a share: with n shares
      the sum of the floors is within n - 1 of the floor of the sum. */
  lemma {:induction false} FloorSumBounds(xs: seq<nat>, k: nat, m: nat)
    requires m > 0
    ensures Sum(FloorEach(xs, k, m)) <= Floor(k * Sum(xs), m)
    ensures xs != [] ==> Floor(k * Sum(xs), m) <= Sum(FloorEach(xs, k, m)) + |xs| - 1
  {
    FloorSumScaled(xs, k, m);
    var f := Sum(FloorEach(xs, k, m));
    AtMostFloor(f, k * Sum(xs), m);
    if xs != [] {
      AtMostFloor(f + |xs|, k * Sum(xs), m);
    }
  }

  lemma {:induction false} FloorSumScaled(xs: seq<nat>, k: nat, m: nat)
    requires m > 0
    ensures Sum(FloorEach(xs, k, m)) * m <= k * Sum(xs)
    ensures xs != [] ==> k * Sum(xs) < (Sum(FloorEach(xs, k, m)) + |xs|) * m
  {
    if xs == [] {
    } else {
      var ys := FloorEach(xs, k, m);
      assert ys[0] == Floor(k * xs[0], m) && ys[1..] == FloorEach(xs[1..], k, m);
      FloorSumScaled(xs[1..], k, m);
      FloorSumStep(ys[0], Sum(ys[1..]), |xs[1..]|, xs[0], Sum(xs[1..]), k, m);
    }
  }

  /** One more share: x is the share's amount, f its floor; g and y stand for the rest. */
  lemma FloorSumStep(f: nat, g: nat, n: nat, x: nat, y: nat, k: nat, m: nat)
    requires m > 0 && f == Floor(k * x, m)
    requires g * m <= k * y
    requires if n == 0 then g == 0 && y == 0 else k * y < (g + n) * m
    ensures (f + g) * m <= k * (x + y) < (f + g + (n + 1)) * m
  {
    Distribute(f, g, m);
    assert k * (x + y) == k * x + k * y;
    Distribute(f + 1, g + n, m);
    Distribute(f, 1, m);
    assert f + g + (n + 1) == (f + 1) + (g + n);
  }
}
