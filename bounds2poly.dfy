/** The bounds normaliser of projtools (bounds2poly): a bounds-bearing value becomes a
    four-corner polygon, reprojected corner by corner when both CRSs are known. */
module BoundsPoly {
  import opened Wrappers
  import opened Geometry

  /** What bounds2poly can be given, by the attributes it probes. */
  datatype BoundsSource =
    | Attributed(totalBounds: Option<seq<real>>, bounds: Option<seq<real>>, crs: Option<Option<Crs>>)
      // an object: a vector layer has total_bounds, a raster has bounds, either may have both;
      // `crs` is None when the object has no `.crs` attribute, Some(None) when `.crs` is None
    | Coordinates(values: seq<real>)
      // a list or tuple (a rasterio BoundingBox is a tuple)
    | Unrecognised
      // any other value

  /** A shapely polygon, by its exterior ring (the closing vertex left implicit). */
  datatype Polygon = Polygon(ring: seq<Point>)

  datatype PolyError =
    | NotABoundsSource          // ValueError: no total_bounds, no bounds, not a list or tuple
    | WrongValueCount(n: nat)   // ValueError: the extent does not unpack into four values
    | MissingCrs                // AttributeError: an object with bounds but no `.crs` attribute

  /** The extent an object exposes: total_bounds if it has one, else bounds. */
  function ObjectExtent(src: BoundsSource): Option<seq<real>>
    requires src.Attributed?
  {
    if src.totalBounds.Some? then src.totalBounds else src.bounds
  }

  /** Lines 81-95: the four values bounds2poly unpacks and the input CRS it goes on with. An
      object's extent is unpacked before its `.crs` is read, so a wrong value count is reported
      even when the attribute is missing. */
  function SourceExtent(src: BoundsSource, inCrs: Option<Crs>): (r: Result<(seq<real>, Option<Crs>), PolyError>)
    ensures r.Success? ==> |r.value.0| == 4
    ensures src.Attributed? && ObjectExtent(src).Some? ==>
      && (r.Success? <==> |ObjectExtent(src).value| == 4 && src.crs.Some?)
      && (r.Success? ==> r.value == (ObjectExtent(src).value, src.crs.value))
      && (r == Failure(MissingCrs) <==> |ObjectExtent(src).value| == 4 && src.crs.None?)
    ensures src.Coordinates? ==>
      && (r.Success? <==> |src.values| == 4)
      && (r.Success? ==> r.value == (src.values, inCrs))
    ensures r == Failure(NotABoundsSource) <==> src.Unrecognised? || (src.Attributed? && ObjectExtent(src).None?)
    ensures src.Attributed? && ObjectExtent(src).Some? && |ObjectExtent(src).value| != 4 ==>
      r == Failure(WrongValueCount(|ObjectExtent(src).value|))
    ensures src.Coordinates? && |src.values| != 4 ==> r == Failure(WrongValueCount(|src.values|))
  {
    match src
    case Attributed(_, _, crs) =>
      if ObjectExtent(src).None? then Failure(NotABoundsSource)
      else
        var values := ObjectExtent(src).value;
        if |values| != 4 then Failure(WrongValueCount(|values|))
        else if crs.None? then Failure(MissingCrs)
        else Success((values, crs.value))
    case Coordinates(values) =>
      if |values| != 4 then Failure(WrongValueCount(|values|)) else Success((values, inCrs))
    case Unrecognised => Failure(NotABoundsSource)
  }

  /** The corners of (xmin, ymin, xmax, ymax), counter-clockwise from the lower left. */
  function Corners(xmin: real, ymin: real, xmax: real, ymax: real): seq<Point> {
    [Point(xmin, ymin), Point(xmax, ymin), Point(xmax, ymax), Point(xmin, ymax)]
  }

  /** bounds2poly. `reproject(from, to, p)` stands for the external point transformer. */
  function Bounds2Poly(src: BoundsSource, inCrs: Option<Crs>, outCrs: Option<Crs>,
                       reproject: (Crs, Crs, Point) -> Point): (r: Result<Polygon, PolyError>)
    ensures r.Success? ==> |r.value.ring| == 4
  {
    match SourceExtent(src, inCrs)
    case Failure(e) => Failure(e)
    case Success((values, crs)) =>
      var corners := Corners(values[0], values[1], values[2], values[3]);
      if crs.Some? && outCrs.Some? then
        Success(Polygon(seq(4, i requires 0 <= i < 4 => reproject(crs.value, outCrs.value, corners[i]))))
      else Success(Polygon(corners))
  }

  /** The polygon bounds2poly builds: it fails exactly when reading the source fails, with the
      same error, and otherwise has corners (xmin,ymin), (xmax,ymin), (xmax,ymax), (xmin,ymax) of
      the extent read, mapped through the transformer exactly when an input CRS (the object's
      own CRS for an object, else the explicit one) and an output CRS are known. */
  lemma Bounds2PolyCorners(src: BoundsSource, inCrs: Option<Crs>, outCrs: Option<Crs>,
                           reproject: (Crs, Crs, Point) -> Point)
    ensures var r := Bounds2Poly(src, inCrs, outCrs, reproject);
      var e := SourceExtent(src, inCrs);
      && (r.Failure? <==> e.Failure?)
      && (r.Failure? ==> r.error == e.error)
      && (r.Success? && (e.value.1.None? || outCrs.None?) ==>
            var vs := e.value.0;
            r.value.ring == [Point(vs[0], vs[1]), Point(vs[2], vs[1]), Point(vs[2], vs[3]), Point(vs[0], vs[3])])
      && (r.Success? && e.value.1.Some? && outCrs.Some? ==>
            var (vs, crs) := e.value;
            r.value.ring == [reproject(crs.value, outCrs.value, Point(vs[0], vs[1])),
                             reproject(crs.value, outCrs.value, Point(vs[2], vs[1])),
                             reproject(crs.value, outCrs.value, Point(vs[2], vs[3])),
                             reproject(crs.value, outCrs.value, Point(vs[0], vs[3]))])
  {
  }

  /** An object's own CRS replaces the explicit input CRS: the explicit one is ignored, an object
      whose `.crs` is None is not reprojected even when both CRSs are given, and an object
      without a `.crs` attribute fails. */
  lemma ObjectCrsOverridesInput(src: BoundsSource, inCrs: Option<Crs>, otherCrs: Option<Crs>,
                                outCrs: Option<Crs>, reproject: (Crs, Crs, Point) -> Point)
    requires src.Attributed?
    ensures Bounds2Poly(src, inCrs, outCrs, reproject) == Bounds2Poly(src, otherCrs, outCrs, reproject)
    ensures src.crs == Some(None) ==> Bounds2Poly(src, inCrs, outCrs, reproject) == Bounds2Poly(src, None, None, reproject)
    ensures src.crs.None? ==> Bounds2Poly(src, inCrs, outCrs, reproject).Failure?
  {
  }

  /** total_bounds is read in preference to bounds. */
  lemma TotalBoundsFirst(tb: seq<real>, b: Option<seq<real>>, crs: Option<Option<Crs>>, inCrs: Option<Crs>,
                         outCrs: Option<Crs>, reproject: (Crs, Crs, Point) -> Point)
    ensures Bounds2Poly(Attributed(Some(tb), b, crs), inCrs, outCrs, reproject)
         == Bounds2Poly(Attributed(Some(tb), None, crs), inCrs, outCrs, reproject)
  {
  }

  /** shapely's .bounds of a polygon: the envelope (xmin, ymin, xmax, ymax) of its vertices. */
  function Envelope(ring: seq<Point>): (b: Bounds)
    requires |ring| > 0
    ensures forall i | 0 <= i < |ring| ::
      b.left <= ring[i].x <= b.right && b.bottom <= ring[i].y <= b.top
    ensures exists i | 0 <= i < |ring| :: b.left == ring[i].x
    ensures exists i | 0 <= i < |ring| :: b.right == ring[i].x
    ensures exists i | 0 <= i < |ring| :: b.bottom == ring[i].y
    ensures exists i | 0 <= i < |ring| :: b.top == ring[i].y
  {
    var p := ring[|ring| - 1];
    if |ring| == 1 then Bounds(p.x, p.y, p.x, p.y)
    else
      var e := Envelope(ring[..|ring| - 1]);
      Bounds(Min(e.left, p.x), Min(e.bottom, p.y), Max(e.right, p.x), Max(e.top, p.y))
  }

  /** The envelope of the box polygon of a well-ordered extent is the extent itself;
      for a reversed extent it is the extent with its edges put in order, as shapely does. */
  lemma EnvelopeOfCorners(xmin: real, ymin: real, xmax: real, ymax: real)
    ensures Envelope(Corners(xmin, ymin, xmax, ymax))
         == Bounds(Min(xmin, xmax), Min(ymin, ymax), Max(xmin, xmax), Max(ymin, ymax))
  {
    var c := Corners(xmin, ymin, xmax, ymax);
    assert c[..3][..2][..1] == [Point(xmin, ymin)];
  }
}
