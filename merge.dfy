/** The bounds combiner of projtools (merge_bounds): a list of bounds-bearing values is folded
    into one extent by union or intersection, then optionally padded by the resolution. */
module Merge {
  import opened Wrappers
  import opened Geometry
  import opened BoundsPoly

  datatype MergeError =
    | NotBoundsLike             // AssertionError: an item has no bounds and is not a list or tuple
    | EmptyList                 // IndexError: bounds_list[0] of an empty list
    | BadSource(e: PolyError)   // ValueError from bounds2poly on an item
    | UnknownAlgorithm          // ValueError: merging_algorithm is neither "union" nor "intersection"
    | EmptyResult               // the merged geometry is empty and has no bounds
    | ZeroResolution            // ZeroDivisionError: `% resolution` with a zero resolution

  /** The accumulated shapely geometry, as far as its bounds are concerned. Every geometry
      merge_bounds can build from axis-aligned boxes is either empty or has this envelope. */
  datatype Shape = Empty | Box(b: Bounds)

  /** The two output forms: a plain tuple or a rasterio BoundingBox. */
  datatype MergedBounds = AsTuple(values: seq<real>) | AsBoundingBox(box: Bounds)

  /** The shape check of merge_bounds: has bounds or total_bounds, or is a list or tuple. */
  predicate BoundsLike(src: BoundsSource) {
    match src
    case Attributed(totalBounds, bounds, _) => totalBounds.Some? || bounds.Some?
    case Coordinates(_) => true
    case Unrecognised => false
  }

  /** merge_bounds passes no CRS to bounds2poly, so the transformer is never applied. */
  function NoTransform(from: Crs, to: Crs, p: Point): Point { p }

  /** bounds2poly(item).bounds as merge_bounds computes it: the extent read from the item with
      its edges put in order. */
  function ItemBounds(src: BoundsSource): (r: Result<Bounds, PolyError>)
    ensures r.Success? <==> SourceExtent(src, None).Success?
    ensures r.Failure? ==> r.error == SourceExtent(src, None).error
    ensures r.Success? ==>
      var vs := SourceExtent(src, None).value.0;
      r.value == Bounds(Min(vs[0], vs[2]), Min(vs[1], vs[3]), Max(vs[0], vs[2]), Max(vs[1], vs[3]))
  {
    match Bounds2Poly(src, None, None, NoTransform)
    case Failure(e) => Failure(e)
    case Success(poly) =>
      var vs := SourceExtent(src, None).value.0;
      EnvelopeOfCorners(vs[0], vs[1], vs[2], vs[3]);
      Success(Envelope(poly.ring))
  }

  /** The point `p` lies in the closed box `b` (a reversed box holds no point). */
  predicate InBox(p: Point, b: Bounds) {
    b.left <= p.x <= b.right && b.bottom <= p.y <= b.top
  }

  /** The bounds of the union of a geometry and a box: the box holds every point of both, and
      each of its edges is an edge of one of them. */
  function Unite(s: Shape, b: Bounds): (r: Shape)
    ensures r.Box?
    ensures s.Empty? ==> r.b == b
    ensures s.Box? ==> forall p | InBox(p, s.b) || InBox(p, b) :: InBox(p, r.b)
    ensures s.Box? ==>
      && (r.b.left == s.b.left || r.b.left == b.left) && (r.b.bottom == s.b.bottom || r.b.bottom == b.bottom)
      && (r.b.right == s.b.right || r.b.right == b.right) && (r.b.top == s.b.top || r.b.top == b.top)
  {
    match s
    case Empty => Box(b)
    case Box(a) =>
      Box(Bounds(Min(a.left, b.left), Min(a.bottom, b.bottom), Max(a.right, b.right), Max(a.top, b.top)))
  }

  /** The pairwise meet of two boxes, which may be reversed. */
  function Meet(a: Bounds, b: Bounds): Bounds {
    Bounds(Max(a.left, b.left), Max(a.bottom, b.bottom), Min(a.right, b.right), Min(a.top, b.top))
  }

  /** The intersection of a box-shaped geometry and a box: a (possibly flat) box holding exactly
      the points of both, or empty when no point lies in both. */
  function Intersect(s: Shape, b: Bounds): (r: Shape)
    ensures r.Box? ==> s.Box? && forall p :: InBox(p, r.b) <==> InBox(p, s.b) && InBox(p, b)
    ensures r.Box? ==> r.b.left <= r.b.right && r.b.bottom <= r.b.top
    ensures r.Empty? ==> forall p :: !(s.Box? && InBox(p, s.b) && InBox(p, b))
  {
    match s
    case Empty => Empty
    case Box(a) =>
      var m := Meet(a, b);
      if m.left <= m.right && m.bottom <= m.top then Box(m) else Empty
  }

  /** The fold of lines 138-146 over the remaining items, from accumulator `acc`. */
  function FoldItems(acc: Shape, items: seq<BoundsSource>, algorithm: string): Result<Shape, MergeError>
    decreases |items|
  {
    if |items| == 0 then Success(acc)
    else match ItemBounds(items[0])
      case Failure(e) => Failure(BadSource(e))
      case Success(b) =>
        if algorithm == "union" then FoldItems(Unite(acc, b), items[1..], algorithm)
        else if algorithm == "intersection" then FoldItems(Intersect(acc, b), items[1..], algorithm)
        else Failure(UnknownAlgorithm)
  }

  /** Lines 154-156: right and top are each moved by the Python remainder of the span. */
  function PadToResolution(b: Bounds, resolution: real): Bounds
    requires resolution != 0.0
  {
    Bounds(b.left, b.bottom,
           b.right + PyMod(b.right - b.left, resolution),
           b.top + PyMod(b.top - b.bottom, resolution))
  }

  /** The output form, with the four values in the order left, bottom, right, top. */
  function Format(b: Bounds, returnRioBbox: bool): MergedBounds {
    if returnRioBbox then AsBoundingBox(b) else AsTuple([b.left, b.bottom, b.right, b.top])
  }

  /** Lines 135-146: the first item's polygon, merged with each following item's in turn. */
  function MergeItems(boundsList: seq<BoundsSource>, algorithm: string): Result<Shape, MergeError>
    requires |boundsList| > 0
  {
    match ItemBounds(boundsList[0])
    case Failure(e) => Failure(BadSource(e))
    case Success(first) => FoldItems(Box(first), boundsList[1..], algorithm)
  }

  /** Lines 149-164: the bounds of the merged geometry, padded and formatted. */
  function Finish(merged: Shape, resolution: Option<real>, returnRioBbox: bool): Result<MergedBounds, MergeError> {
    match merged
    case Empty => Failure(EmptyResult)
    case Box(b) =>
      if resolution == Some(0.0) then Failure(ZeroResolution)
      else if resolution.Some? then Success(Format(PadToResolution(b, resolution.value), returnRioBbox))
      else Success(Format(b, returnRioBbox))
  }

  /** What merge_bounds returns or raises. */
  function MergeBoundsSpec(boundsList: seq<BoundsSource>, resolution: Option<real>,
                           algorithm: string, returnRioBbox: bool): Result<MergedBounds, MergeError>
  {
    if !(forall i | 0 <= i < |boundsList| :: BoundsLike(boundsList[i])) then Failure(NotBoundsLike)
    else if |boundsList| == 0 then Failure(EmptyList)
    else match MergeItems(boundsList, algorithm)
      case Failure(e) => Failure(e)
      case Success(merged) => Finish(merged, resolution, returnRioBbox)
  }

  /** Lines 129-133: every item must pass the shape check. */
  method CheckItems(boundsList: seq<BoundsSource>) returns (ok: bool)
    ensures ok <==> forall i | 0 <= i < |boundsList| :: BoundsLike(boundsList[i])
  {
    for i := 0 to |boundsList|
      invariant forall j | 0 <= j < i :: BoundsLike(boundsList[j])
    {
      if !BoundsLike(boundsList[i]) {
        return false;
      }
    }
    return true;
  }

  /** Lines 135-146, by a loop over the items. */
  method MergePolygons(boundsList: seq<BoundsSource>, mergingAlgorithm: string)
    returns (r: Result<Shape, MergeError>)
    requires |boundsList| > 0
    ensures r == MergeItems(boundsList, mergingAlgorithm)
  {
    var first := ItemBounds(boundsList[0]);
    if first.Failure? {
      return Failure(BadSource(first.error));
    }
    var outputPoly := Box(first.value);
    for k := 1 to |boundsList|
      invariant FoldItems(outputPoly, boundsList[k..], mergingAlgorithm)
             == FoldItems(Box(first.value), boundsList[1..], mergingAlgorithm)
    {
      assert boundsList[k..][1..] == boundsList[k + 1..];
      var newPoly := ItemBounds(boundsList[k]);
      if newPoly.Failure? {
        return Failure(BadSource(newPoly.error));
      }
      if mergingAlgorithm == "union" {
        outputPoly := Unite(outputPoly, newPoly.value);
      } else if mergingAlgorithm == "intersection" {
        outputPoly := Intersect(outputPoly, newPoly.value);
      } else {
        return Failure(UnknownAlgorithm);
      }
    }
    assert boundsList[|boundsList|..] == [];
    return Success(outputPoly);
  }

  /** Lines 150-156: the bounds as a dictionary, whose right and top entries are moved by
      the remainder of the span when a resolution is given. */
  method BoundsDict(newBounds: Bounds, resolution: Option<real>)
    returns (r: Result<map<string, real>, MergeError>)
    ensures r.Failure? <==> resolution == Some(0.0)
    ensures r.Failure? ==> r.error == ZeroResolution
    ensures r.Success? ==>
      var b := if resolution.Some? then PadToResolution(newBounds, resolution.value) else newBounds;
      r.value == map["left" := b.left, "bottom" := b.bottom, "right" := b.right, "top" := b.top]
  {
    var rioBounds := map["left" := newBounds.left, "bottom" := newBounds.bottom,
                         "right" := newBounds.right, "top" := newBounds.top];
    if resolution.Some? {
      var pairs := [("left", "right"), ("bottom", "top")];
      for p := 0 to |pairs|
        invariant rioBounds.Keys == {"left", "bottom", "right", "top"}
        invariant p > 0 ==> resolution.value != 0.0
        invariant rioBounds["left"] == newBounds.left && rioBounds["bottom"] == newBounds.bottom
        invariant rioBounds["right"] == if p > 0 then PadToResolution(newBounds, resolution.value).right
                                         else newBounds.right
        invariant rioBounds["top"] == if p > 1 then PadToResolution(newBounds, resolution.value).top
                                       else newBounds.top
      {
        var (key1, key2) := pairs[p];
        if resolution.value == 0.0 {
          return Failure(ZeroResolution);
        }
        var modulo := PyMod(rioBounds[key2] - rioBounds[key1], resolution.value);
        rioBounds := rioBounds[key2 := rioBounds[key2] + modulo];
      }
    }
    return Success(rioBounds);
  }

  /** merge_bounds: check every item, fold the items' polygons into the first one, read the
      bounds into a dictionary, pad right and top by the resolution, and format. */
  method MergeBounds(boundsList: seq<BoundsSource>, resolution: Option<real>,
                     mergingAlgorithm: string, returnRioBbox: bool)
    returns (r: Result<MergedBounds, MergeError>)
    ensures r == MergeBoundsSpec(boundsList, resolution, mergingAlgorithm, returnRioBbox)
  {
    var ok := CheckItems(boundsList);
    if !ok {
      return Failure(NotBoundsLike);
    }
    if |boundsList| == 0 {
      return Failure(EmptyList);
    }
    var outputPoly := MergePolygons(boundsList, mergingAlgorithm);
    if outputPoly.Failure? {
      return Failure(outputPoly.error);
    }
    if outputPoly.value.Empty? {
      return Failure(EmptyResult);
    }
    var rioBounds := BoundsDict(outputPoly.value.b, resolution);
    if rioBounds.Failure? {
      return Failure(rioBounds.error);
    }
    var d := rioBounds.value;
    if returnRioBbox {
      r := Success(AsBoundingBox(Bounds(d["left"], d["bottom"], d["right"], d["top"])));
    } else {
      r := Success(AsTuple([d["left"], d["bottom"], d["right"], d["top"]]));
    }
  }
}
