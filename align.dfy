/** Grid alignment of bounds onto the lattice of a reference affine transform
    (align_bounds in geoutils/projtools.py). */
module Align {
  import opened Geometry

  /** A rasterio affine transform: x = a * col + b * row + c and y = d * col + e * row + f.
      `a` is the x resolution, `e` the y resolution (negative for north-up grids),
      `c` (xoff) and `f` (yoff) the grid origin; `b` and `d` are not consulted. */
  datatype Affine = Affine(a: real, b: real, c: real, d: real, e: real, f: real)

  /** The first edge along one axis: `v` moved against the axis direction `res`
      onto the lattice `origin + k * res`. */
  function SnapStart(v: real, origin: real, res: real): real
    requires res != 0.0
  {
    origin + Floor((v - origin) / res) as real * res
  }

  /** The second edge along one axis: `v` moved along the axis direction `res`
      onto the lattice `start + k * res`. */
  function SnapEnd(start: real, v: real, res: real): real
    requires res != 0.0
  {
    start + Ceil((v - start) / res) as real * res
  }

  /** align_bounds: the x axis is snapped from `left`, the y axis from `top`. */
  function AlignBounds(t: Affine, src: Bounds): Bounds
    requires t.a != 0.0 && t.e != 0.0
  {
    var left := SnapStart(src.left, t.c, t.a);
    var right := SnapEnd(left, src.right, t.a);
    var top := SnapStart(src.top, t.f, t.e);
    var bottom := SnapEnd(top, src.bottom, t.e);
    Bounds(left, bottom, right, top)
  }

  /** The bounds are aligned to `t`: the offsets from the origin and the extents are whole pixels. */
  predicate OnGrid(t: Affine, b: Bounds)
    requires t.a != 0.0 && t.e != 0.0
  {
    && IsWhole((b.left - t.c) / t.a)
    && IsWhole((b.right - b.left) / t.a)
    && IsWhole((b.top - t.f) / t.e)
    && IsWhole((b.bottom - b.top) / t.e)
  }

  lemma WholeAdd(x: real, y: real)
    requires IsWhole(x) && IsWhole(y)
    ensures IsWhole(x + y)
  {
    assert x + y == (x.Floor + y.Floor) as real;
  }

  lemma QuotientOfShift(u: real, k: real, res: real)
    requires res != 0.0
    ensures (u + k * res) / res == u / res + k
  {
  }

  lemma SnapStartFacts(v: real, origin: real, res: real)
    requires res != 0.0
    ensures IsWhole((SnapStart(v, origin, res) - origin) / res)
    ensures -1.0 < (SnapStart(v, origin, res) - v) / res <= 0.0
  {
    var q := (v - origin) / res;
    var k := Floor(q) as real;
    var s := SnapStart(v, origin, res);
    assert s - origin == k * res;
    QuotientOfShift(0.0, k, res);
    assert (s - origin) / res == k;
    assert s - v == (origin - v) + k * res;
    QuotientOfShift(origin - v, k, res);
    NegateQuotient(v - origin, res);
    assert (s - v) / res == k - q;
  }

  lemma SnapEndFacts(start: real, v: real, res: real)
    requires res != 0.0
    ensures IsWhole((SnapEnd(start, v, res) - start) / res)
    ensures 0.0 <= (SnapEnd(start, v, res) - v) / res < 1.0
  {
    var p := (v - start) / res;
    var k := Ceil(p) as real;
    var s := SnapEnd(start, v, res);
    assert s - start == k * res;
    QuotientOfShift(0.0, k, res);
    assert (s - start) / res == k;
    assert s - v == (start - v) + k * res;
    QuotientOfShift(start - v, k, res);
    NegateQuotient(v - start, res);
    assert (s - v) / res == k - p;
  }

  lemma NegateQuotient(x: real, res: real)
    requires res != 0.0
    ensures (-x) / res == -(x / res)
  {
  }

  /** A value already on the lattice is left where it is. */
  lemma SnapStartFixed(v: real, origin: real, res: real)
    requires res != 0.0 && IsWhole((v - origin) / res)
    ensures SnapStart(v, origin, res) == v
  {
    DivTimes(v - origin, res);
  }

  lemma SnapEndFixed(start: real, v: real, res: real)
    requires res != 0.0 && IsWhole((v - start) / res)
    ensures SnapEnd(start, v, res) == v
  {
    DivTimes(v - start, res);
  }

  lemma QuotientSum(x: real, y: real, res: real)
    requires res != 0.0
    ensures (x + y) / res == x / res + y / res
  {
  }

  /** Both edges of one axis lie on the lattice, one whole number of pixels apart. */
  lemma SnapAxisOnLattice(v: real, w: real, origin: real, res: real)
    requires res != 0.0
    ensures var s := SnapStart(v, origin, res);
      var e := SnapEnd(s, w, res);
      IsWhole((s - origin) / res) && IsWhole((e - s) / res) && IsWhole((e - origin) / res)
  {
    var s := SnapStart(v, origin, res);
    var e := SnapEnd(s, w, res);
    SnapStartFacts(v, origin, res);
    SnapEndFacts(s, w, res);
    QuotientSum(s - origin, e - s, res);
    WholeAdd((s - origin) / res, (e - s) / res);
  }

  /** The output lies on the reference lattice: the offset of every edge from the grid origin
      and the width and height are whole numbers of pixels. */
  lemma AlignOnLattice(t: Affine, src: Bounds)
    requires t.a != 0.0 && t.e != 0.0
    ensures var r := AlignBounds(t, src);
      && OnGrid(t, r)
      && IsWhole((r.right - t.c) / t.a)
      && IsWhole((r.bottom - t.f) / t.e)
  {
    SnapAxisOnLattice(src.left, src.right, t.c, t.a);
    SnapAxisOnLattice(src.top, src.bottom, t.f, t.e);
  }

  /** Every edge moves outward, against the resolution's direction on the first edge of an axis
      and along it on the second, and by less than one pixel. */
  lemma AlignPadding(t: Affine, src: Bounds)
    requires t.a != 0.0 && t.e != 0.0
    ensures var r := AlignBounds(t, src);
      && -1.0 < (r.left - src.left) / t.a <= 0.0
      && 0.0 <= (r.right - src.right) / t.a < 1.0
      && -1.0 < (r.top - src.top) / t.e <= 0.0
      && 0.0 <= (r.bottom - src.bottom) / t.e < 1.0
  {
    var r := AlignBounds(t, src);
    SnapStartFacts(src.left, t.c, t.a);
    SnapEndFacts(r.left, src.right, t.a);
    SnapStartFacts(src.top, t.f, t.e);
    SnapEndFacts(r.top, src.bottom, t.e);
  }

  lemma SignOfQuotient(x: real, res: real)
    requires res != 0.0
    ensures res > 0.0 ==> (x / res <= 0.0 <==> x <= 0.0)
    ensures res < 0.0 ==> (x / res <= 0.0 <==> x >= 0.0)
  {
    DivTimes(x, res);
    if x / res <= 0.0 {
      MulMonotone(x / res, 0.0, res);
    } else {
      MulMonotone(0.0, x / res, res);
    }
  }

  /** The first edge of an axis moves against the resolution's direction. */
  lemma SnapStartOutward(v: real, origin: real, res: real)
    requires res != 0.0
    ensures res > 0.0 ==> SnapStart(v, origin, res) <= v
    ensures res < 0.0 ==> SnapStart(v, origin, res) >= v
  {
    SnapStartFacts(v, origin, res);
    SignOfQuotient(SnapStart(v, origin, res) - v, res);
  }

  /** The second edge of an axis moves along the resolution's direction. */
  lemma SnapEndOutward(start: real, v: real, res: real)
    requires res != 0.0
    ensures res > 0.0 ==> v <= SnapEnd(start, v, res)
    ensures res < 0.0 ==> v >= SnapEnd(start, v, res)
  {
    var e := SnapEnd(start, v, res);
    SnapEndFacts(start, v, res);
    NegateQuotient(e - v, res);
    assert (v - e) / res == -((e - v) / res);
    SignOfQuotient(v - e, res);
  }

  /** The output contains the input: for a positive x resolution left' <= left and right' >= right,
      for a negative y resolution (north-up) top' >= top and bottom' <= bottom; for a positive
      y resolution (south-up, where rasterio's bottom lies above its top) top' <= top and bottom' >= bottom. */
  lemma AlignContains(t: Affine, src: Bounds)
    requires t.a != 0.0 && t.e != 0.0
    ensures var r := AlignBounds(t, src);
      && (t.a > 0.0 ==> r.left <= src.left && src.right <= r.right)
      && (t.a < 0.0 ==> r.left >= src.left && src.right >= r.right)
      && (t.e < 0.0 ==> r.top >= src.top && src.bottom >= r.bottom)
      && (t.e > 0.0 ==> r.top <= src.top && src.bottom <= r.bottom)
  {
    var r := AlignBounds(t, src);
    SnapStartOutward(src.left, t.c, t.a);
    SnapEndOutward(r.left, src.right, t.a);
    SnapStartOutward(src.top, t.f, t.e);
    SnapEndOutward(r.top, src.bottom, t.e);
  }

  /** Aligning bounds that are already on the grid returns them unchanged. */
  lemma AlignFixesOnGrid(t: Affine, b: Bounds)
    requires t.a != 0.0 && t.e != 0.0 && OnGrid(t, b)
    ensures AlignBounds(t, b) == b
  {
    SnapStartFixed(b.left, t.c, t.a);
    SnapEndFixed(b.left, b.right, t.a);
    SnapStartFixed(b.top, t.f, t.e);
    SnapEndFixed(b.top, b.bottom, t.e);
  }

  /** Alignment is idempotent. */
  lemma AlignIdempotent(t: Affine, src: Bounds)
    requires t.a != 0.0 && t.e != 0.0
    ensures AlignBounds(t, AlignBounds(t, src)) == AlignBounds(t, src)
  {
    AlignOnLattice(t, src);
    AlignFixesOnGrid(t, AlignBounds(t, src));
  }
}
