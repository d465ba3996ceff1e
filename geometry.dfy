/** Values shared by the helpers of projtools: points, bounds, CRS descriptors,
    and the real-number counterparts of Python's math.floor, math.ceil and float `%`. */
module Geometry {

  /** A point (x, y) in the units of some coordinate reference system. */
  datatype Point = Point(x: real, y: real)

  /** An axis-aligned extent (left, bottom, right, top), i.e. (xmin, ymin, xmax, ymax). */
  datatype Bounds = Bounds(left: real, bottom: real, right: real, top: real)

  /** An opaque coordinate reference system descriptor (authority code, WKT or proj string). */
  datatype Crs = Crs(descriptor: string)

  function Min(x: real, y: real): real { if x <= y then x else y }
  function Max(x: real, y: real): real { if x >= y then x else y }

  /** `x` is a whole number. */
  predicate IsWhole(x: real) {
    x.Floor as real == x
  }

  /** Python's math.floor. */
  function Floor(x: real): (r: int)
    ensures r as real <= x < r as real + 1.0
    ensures IsWhole(x) ==> r as real == x
  {
    x.Floor
  }

  /** Python's math.ceil. */
  function Ceil(x: real): (r: int)
    ensures x <= r as real < x + 1.0
    ensures IsWhole(x) ==> r as real == x
  {
    var n := (-x).Floor;
    NegatedFloor(x);
    -n
  }

  lemma FloorOfInt(z: int)
    ensures (z as real).Floor == z
  {
  }

  lemma NegatedFloor(x: real)
    ensures IsWhole(x) ==> (-x).Floor as real == -x
  {
    if IsWhole(x) {
      assert -x == (-(x.Floor)) as real;
      FloorOfInt(-(x.Floor));
    }
  }

  lemma DivTimes(x: real, m: real)
    requires m != 0.0
    ensures (x / m) * m == x
  {
  }

  lemma TimesDiv(k: real, m: real)
    requires m != 0.0
    ensures (k * m) / m == k
  {
  }

  lemma AddOneTimes(k: real, m: real)
    ensures (k + 1.0) * m == k * m + m
  {
  }

  lemma NegTimes(a: real, m: real)
    ensures a * (-m) == -(a * m)
  {
  }

  lemma MulMonotone(a: real, b: real, m: real)
    requires a <= b
    ensures m >= 0.0 ==> a * m <= b * m
    ensures m <= 0.0 ==> a * m >= b * m
  {
  }

  lemma MulStrict(a: real, b: real, m: real)
    requires a < b && m > 0.0
    ensures a * m < b * m
  {
  }

  /** If x = q * m with k <= q and m > 0, then k * m <= x. */
  lemma AboveLowerMultiple(x: real, q: real, k: real, m: real)
    requires q * m == x && k <= q && m > 0.0
    ensures k * m <= x
  {
    MulMonotone(k, q, m);
  }

  /** If x = q * m with q < k + 1 and m > 0, then x < k * m + m. */
  lemma BelowUpperMultiple(x: real, q: real, k: real, m: real)
    requires q * m == x && q < k + 1.0 && m > 0.0
    ensures x < k * m + m
  {
    MulStrict(q, k + 1.0, m);
    AddOneTimes(k, m);
  }

  /** If x = q * m with k <= q and m < 0, then x <= k * m. */
  lemma BelowLowerMultiple(x: real, q: real, k: real, m: real)
    requires q * m == x && k <= q && m < 0.0
    ensures x <= k * m
  {
    MulMonotone(k, q, m);
  }

  /** If x = q * m with q < k + 1 and m < 0, then k * m + m < x. */
  lemma AboveUpperMultiple(x: real, q: real, k: real, m: real)
    requires q * m == x && q < k + 1.0 && m < 0.0
    ensures k * m + m < x
  {
    MulStrict(q, k + 1.0, -m);
    NegTimes(q, m);
    NegTimes(k + 1.0, m);
    AddOneTimes(k, m);
  }

  /** x lies between the multiples Floor(x / m) * m and (Floor(x / m) + 1) * m of m. */
  lemma FloorMultiple(x: real, m: real)
    requires m != 0.0
    ensures var k := Floor(x / m) as real;
      && (m > 0.0 ==> k * m <= x < k * m + m)
      && (m < 0.0 ==> k * m >= x > k * m + m)
  {
    DivTimes(x, m);
    var k := Floor(x / m) as real;
    if m > 0.0 {
      AboveLowerMultiple(x, x / m, k, m);
      BelowUpperMultiple(x, x / m, k, m);
    } else {
      BelowLowerMultiple(x, x / m, k, m);
      AboveUpperMultiple(x, x / m, k, m);
    }
  }

  /** Python's float `%`: the remainder takes the sign of the divisor. */
  function PyMod(x: real, m: real): (r: real)
    requires m != 0.0
    ensures m > 0.0 ==> 0.0 <= r < m
    ensures m < 0.0 ==> m < r <= 0.0
    ensures (x - r) / m == Floor(x / m) as real
  {
    var k := Floor(x / m) as real;
    FloorMultiple(x, m);
    TimesDiv(k, m);
    x - k * m
  }
}
