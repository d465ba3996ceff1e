/** What merge_bounds promises, proved of its specification: the union is the envelope of
    all extents, the intersection their common box (empty exactly when two extents are apart),
    the result does not depend on how each extent is supplied, and the resolution step moves
    only the right and top edges, by the remainder of the span. */
module MergeProperties {
  import opened Wrappers
  import opened Geometry
  import opened BoundsPoly
  import opened Merge

  /** The least element of a non-empty sequence. */
  function MinOf(xs: seq<real>): (m: real)
    requires |xs| > 0
    ensures forall i | 0 <= i < |xs| :: m <= xs[i]
    ensures exists i | 0 <= i < |xs| :: m == xs[i]
  {
    if |xs| == 1 then xs[0]
    else
      var rest := MinOf(xs[1..]);
      assert forall i | 1 <= i < |xs| :: xs[i] == xs[1..][i - 1];
      Min(xs[0], rest)
  }

  /** The greatest element of a non-empty sequence. */
  function MaxOf(xs: seq<real>): (m: real)
    requires |xs| > 0
    ensures forall i | 0 <= i < |xs| :: xs[i] <= m
    ensures exists i | 0 <= i < |xs| :: m == xs[i]
  {
    if |xs| == 1 then xs[0]
    else
      var rest := MaxOf(xs[1..]);
      assert forall i | 1 <= i < |xs| :: xs[i] == xs[1..][i - 1];
      Max(xs[0], rest)
  }

  function Lefts(bs: seq<Bounds>): seq<real> { seq(|bs|, i requires 0 <= i < |bs| => bs[i].left) }
  function Bottoms(bs: seq<Bounds>): seq<real> { seq(|bs|, i requires 0 <= i < |bs| => bs[i].bottom) }
  function Rights(bs: seq<Bounds>): seq<real> { seq(|bs|, i requires 0 <= i < |bs| => bs[i].right) }
  function Tops(bs: seq<Bounds>): seq<real> { seq(|bs|, i requires 0 <= i < |bs| => bs[i].top) }

  /** Every item yields an extent. */
  predicate AllReadable(items: seq<BoundsSource>) {
    forall i | 0 <= i < |items| :: ItemBounds(items[i]).Success?
  }

  /** The extents of the items, in order. */
  function Extents(items: seq<BoundsSource>): (bs: seq<Bounds>)
    requires AllReadable(items)
    ensures |bs| == |items|
    ensures forall i | 0 <= i < |items| :: bs[i] == ItemBounds(items[i]).value
  {
    if |items| == 0 then []
    else [ItemBounds(items[0]).value] + Extents(items[1..])
  }

  /** Every extent reaches every other: no extent lies wholly left of, right of, above or
      below another. */
  ghost predicate Overlap(bs: seq<Bounds>) {
    forall i, j | 0 <= i < |bs| && 0 <= j < |bs| :: bs[i].left <= bs[j].right && bs[i].bottom <= bs[j].top
  }

  /** The envelope of the extents: the least left and bottom, the greatest right and top. */
  function EnvelopeOf(bs: seq<Bounds>): Bounds
    requires |bs| > 0
  {
    Bounds(MinOf(Lefts(bs)), MinOf(Bottoms(bs)), MaxOf(Rights(bs)), MaxOf(Tops(bs)))
  }

  /** The common box of the extents: the greatest left and bottom, the least right and top. */
  function CommonBox(bs: seq<Bounds>): Bounds
    requires |bs| > 0
  {
    Bounds(MaxOf(Lefts(bs)), MaxOf(Bottoms(bs)), MinOf(Rights(bs)), MinOf(Tops(bs)))
  }

  lemma MinOfFirstTwo(x: real, y: real, rest: seq<real>)
    ensures MinOf([x, y] + rest) == MinOf([Min(x, y)] + rest)
  {
    assert ([x, y] + rest)[1..] == [y] + rest;
    if |rest| > 0 {
      assert ([y] + rest)[1..] == rest;
      assert ([Min(x, y)] + rest)[1..] == rest;
    }
  }

  lemma MaxOfFirstTwo(x: real, y: real, rest: seq<real>)
    ensures MaxOf([x, y] + rest) == MaxOf([Max(x, y)] + rest)
  {
    assert ([x, y] + rest)[1..] == [y] + rest;
    if |rest| > 0 {
      assert ([y] + rest)[1..] == rest;
      assert ([Max(x, y)] + rest)[1..] == rest;
    }
  }

  lemma ColumnsOfCons(a: Bounds, e: Bounds, rest: seq<Bounds>)
    ensures Lefts([a] + ([e] + rest)) == [a.left, e.left] + Lefts(rest)
    ensures Bottoms([a] + ([e] + rest)) == [a.bottom, e.bottom] + Bottoms(rest)
    ensures Rights([a] + ([e] + rest)) == [a.right, e.right] + Rights(rest)
    ensures Tops([a] + ([e] + rest)) == [a.top, e.top] + Tops(rest)
  {
  }

  lemma ColumnsOfHead(a: Bounds, rest: seq<Bounds>)
    ensures Lefts([a] + rest) == [a.left] + Lefts(rest)
    ensures Bottoms([a] + rest) == [a.bottom] + Bottoms(rest)
    ensures Rights([a] + rest) == [a.right] + Rights(rest)
    ensures Tops([a] + rest) == [a.top] + Tops(rest)
  {
  }

  /** Folding the union over the items gives the envelope of the accumulator and the items. */
  lemma {:induction false} FoldUnion(a: Bounds, items: seq<BoundsSource>)
    requires AllReadable(items)
    ensures FoldItems(Box(a), items, "union") == Success(Box(EnvelopeOf([a] + Extents(items))))
    decreases |items|
  {
    if |items| == 0 {
      assert [a] + Extents(items) == [a];
    } else {
      var e := ItemBounds(items[0]).value;
      var a' := Unite(Box(a), e).b;
      assert AllReadable(items[1..]);
      FoldUnion(a', items[1..]);
      var rest := Extents(items[1..]);
      assert Extents(items) == [e] + rest;
      ColumnsOfCons(a, e, rest);
      ColumnsOfHead(a', rest);
      MinOfFirstTwo(a.left, e.left, Lefts(rest));
      MinOfFirstTwo(a.bottom, e.bottom, Bottoms(rest));
      MaxOfFirstTwo(a.right, e.right, Rights(rest));
      MaxOfFirstTwo(a.top, e.top, Tops(rest));
    }
  }

  /** Once the intersection is empty it stays empty. */
  lemma {:induction false} FoldIntersectionEmpty(items: seq<BoundsSource>)
    requires AllReadable(items)
    ensures FoldItems(Empty, items, "intersection") == Success(Empty)
    decreases |items|
  {
    if |items| > 0 {
      assert AllReadable(items[1..]);
      FoldIntersectionEmpty(items[1..]);
    }
  }

  predicate Ordered(b: Bounds) { b.left <= b.right && b.bottom <= b.top }

  /** Meeting the first two extents first leaves the common box unchanged. */
  lemma CommonBoxOfFirstTwo(a: Bounds, e: Bounds, rest: seq<Bounds>)
    ensures CommonBox([a] + ([e] + rest)) == CommonBox([Meet(a, e)] + rest)
  {
    ColumnsOfCons(a, e, rest);
    ColumnsOfHead(Meet(a, e), rest);
    MaxOfFirstTwo(a.left, e.left, Lefts(rest));
    MaxOfFirstTwo(a.bottom, e.bottom, Bottoms(rest));
    MinOfFirstTwo(a.right, e.right, Rights(rest));
    MinOfFirstTwo(a.top, e.top, Tops(rest));
  }

  /** A reversed box stays reversed when met with further extents. */
  lemma ReversedStaysReversed(m: Bounds, rest: seq<Bounds>)
    requires !Ordered(m)
    ensures !Ordered(CommonBox([m] + rest))
  {
    ColumnsOfHead(m, rest);
    var c := CommonBox([m] + rest);
    assert Lefts([m] + rest)[0] == m.left && Rights([m] + rest)[0] == m.right;
    assert Bottoms([m] + rest)[0] == m.bottom && Tops([m] + rest)[0] == m.top;
    assert m.left <= c.left && c.right <= m.right;
    assert m.bottom <= c.bottom && c.top <= m.top;
  }

  /** One step of the intersection fold: meet the accumulator with the first extent. */
  lemma IntersectionStep(a: Bounds, items: seq<BoundsSource>)
    requires |items| > 0 && ItemBounds(items[0]).Success?
    ensures var e := ItemBounds(items[0]).value;
      FoldItems(Box(a), items, "intersection")
      == FoldItems(if Ordered(Meet(a, e)) then Box(Meet(a, e)) else Empty, items[1..], "intersection")
  {
    assert "intersection" != "union";
  }

  /** Folding the intersection over the items gives the common box of the accumulator and the
      items when that box is not reversed, and the empty geometry otherwise. */
  lemma {:induction false} FoldIntersection(a: Bounds, items: seq<BoundsSource>)
    requires AllReadable(items) && Ordered(a)
    ensures var m := CommonBox([a] + Extents(items));
      FoldItems(Box(a), items, "intersection") == Success(if Ordered(m) then Box(m) else Empty)
    decreases |items|
  {
    if |items| == 0 {
      assert [a] + Extents(items) == [a];
    } else {
      var e := ItemBounds(items[0]).value;
      var rest := Extents(items[1..]);
      assert AllReadable(items[1..]);
      assert Extents(items) == [e] + rest;
      CommonBoxOfFirstTwo(a, e, rest);
      IntersectionStep(a, items);
      if Ordered(Meet(a, e)) {
        FoldIntersection(Meet(a, e), items[1..]);
      } else {
        FoldIntersectionEmpty(items[1..]);
        ReversedStaysReversed(Meet(a, e), rest);
      }
    }
  }

  /** The common box is ordered exactly when the extents pairwise overlap. */
  lemma CommonBoxOrdered(bs: seq<Bounds>)
    requires |bs| > 0
    ensures Ordered(CommonBox(bs)) <==> Overlap(bs)
  {
    var m := CommonBox(bs);
    if Ordered(m) {
      forall i, j | 0 <= i < |bs| && 0 <= j < |bs|
        ensures bs[i].left <= bs[j].right && bs[i].bottom <= bs[j].top
      {
        assert Lefts(bs)[i] == bs[i].left && Rights(bs)[j] == bs[j].right;
        assert Bottoms(bs)[i] == bs[i].bottom && Tops(bs)[j] == bs[j].top;
      }
    } else {
      var il :| 0 <= il < |bs| && m.left == Lefts(bs)[il];
      var jr :| 0 <= jr < |bs| && m.right == Rights(bs)[jr];
      var ib :| 0 <= ib < |bs| && m.bottom == Bottoms(bs)[ib];
      var jt :| 0 <= jt < |bs| && m.top == Tops(bs)[jt];
      assert !(bs[il].left <= bs[jr].right && bs[ib].bottom <= bs[jt].top);
    }
  }

  /** An item that yields an extent passes the shape check. */
  lemma ReadableIsBoundsLike(items: seq<BoundsSource>)
    requires AllReadable(items)
    ensures forall i | 0 <= i < |items| :: BoundsLike(items[i])
  {
    forall i | 0 <= i < |items| ensures BoundsLike(items[i]) {
      assert ItemBounds(items[i]).Success?;
    }
  }

  /** merge_bounds on readable items, before the resolution step: the fold from the first extent. */
  lemma MergeOfReadable(boundsList: seq<BoundsSource>, algorithm: string)
    requires |boundsList| > 0 && AllReadable(boundsList)
    ensures MergeBoundsSpec(boundsList, None, algorithm, false)
         == match FoldItems(Box(ItemBounds(boundsList[0]).value), boundsList[1..], algorithm)
            case Failure(e) => Failure(e)
            case Success(Empty) => Failure(EmptyResult)
            case Success(Box(b)) => Success(Format(b, false))
  {
    ReadableIsBoundsLike(boundsList);
  }

  /** merge_bounds with "union" returns (min of lefts, min of bottoms, max of rights, max of tops). */
  lemma MergeUnion(boundsList: seq<BoundsSource>)
    requires |boundsList| > 0 && AllReadable(boundsList)
    ensures MergeBoundsSpec(boundsList, None, "union", false)
         == Success(Format(EnvelopeOf(Extents(boundsList)), false))
  {
    var first := ItemBounds(boundsList[0]).value;
    MergeOfReadable(boundsList, "union");
    assert AllReadable(boundsList[1..]);
    FoldUnion(first, boundsList[1..]);
    assert Extents(boundsList) == [first] + Extents(boundsList[1..]);
  }

  /** merge_bounds with "intersection" returns (max of lefts, max of bottoms, min of rights,
      min of tops) when the extents pairwise overlap, and has no bounds otherwise. */
  lemma MergeIntersection(boundsList: seq<BoundsSource>)
    requires |boundsList| > 0 && AllReadable(boundsList)
    ensures var r := MergeBoundsSpec(boundsList, None, "intersection", false);
      && (r.Success? <==> Overlap(Extents(boundsList)))
      && (r.Success? ==> r.value == Format(CommonBox(Extents(boundsList)), false))
      && (r.Failure? ==> r.error == EmptyResult)
  {
    var first := ItemBounds(boundsList[0]).value;
    MergeOfReadable(boundsList, "intersection");
    assert AllReadable(boundsList[1..]);
    assert Ordered(first);
    FoldIntersection(first, boundsList[1..]);
    assert Extents(boundsList) == [first] + Extents(boundsList[1..]);
    CommonBoxOrdered(Extents(boundsList));
  }

  /** The same extent given as a plain list of coordinates. An object without a `.crs` attribute
      is kept as it is: bounds2poly fails on it, and would not on the list. */
  function AsCoordinates(src: BoundsSource): BoundsSource {
    match src
    case Attributed(Some(tb), _, Some(_)) => Coordinates(tb)
    case Attributed(None, Some(b), Some(_)) => Coordinates(b)
    case _ => src
  }

  lemma {:induction false} FoldCongruence(acc: Shape, xs: seq<BoundsSource>, ys: seq<BoundsSource>, algorithm: string)
    requires |xs| == |ys|
    requires forall i | 0 <= i < |xs| :: ItemBounds(xs[i]) == ItemBounds(ys[i])
    ensures FoldItems(acc, xs, algorithm) == FoldItems(acc, ys, algorithm)
    decreases |xs|
  {
    if |xs| > 0 {
      match ItemBounds(xs[0])
      case Failure(_) =>
      case Success(b) =>
        FoldCongruence(Unite(acc, b), xs[1..], ys[1..], algorithm);
        FoldCongruence(Intersect(acc, b), xs[1..], ys[1..], algorithm);
    }
  }

  /** Two lists whose items agree on the shape check and on their extents merge alike. */
  lemma MergeCongruence(xs: seq<BoundsSource>, ys: seq<BoundsSource>, resolution: Option<real>,
                        algorithm: string, returnRioBbox: bool)
    requires |xs| == |ys|
    requires forall i | 0 <= i < |xs| :: BoundsLike(xs[i]) == BoundsLike(ys[i])
    requires forall i | 0 <= i < |xs| :: ItemBounds(xs[i]) == ItemBounds(ys[i])
    ensures MergeBoundsSpec(xs, resolution, algorithm, returnRioBbox)
         == MergeBoundsSpec(ys, resolution, algorithm, returnRioBbox)
  {
    assert (forall i | 0 <= i < |xs| :: BoundsLike(xs[i])) == (forall i | 0 <= i < |ys| :: BoundsLike(ys[i]));
    if |xs| > 0 {
      assert ItemBounds(xs[0]) == ItemBounds(ys[0]);
      if ItemBounds(xs[0]).Success? {
        FoldCongruence(Box(ItemBounds(xs[0]).value), xs[1..], ys[1..], algorithm);
      }
      assert MergeItems(xs, algorithm) == MergeItems(ys, algorithm);
    }
  }

  /** The result, and the error, are the same whether the extents come from objects with
      total_bounds or bounds (and a `.crs` attribute), from BoundingBoxes or from plain lists. */
  lemma MergeIgnoresSourceKind(boundsList: seq<BoundsSource>, resolution: Option<real>,
                               algorithm: string, returnRioBbox: bool)
    ensures MergeBoundsSpec(boundsList, resolution, algorithm, returnRioBbox)
         == MergeBoundsSpec(seq(|boundsList|, i requires 0 <= i < |boundsList| => AsCoordinates(boundsList[i])),
                            resolution, algorithm, returnRioBbox)
  {
    var plain := seq(|boundsList|, i requires 0 <= i < |boundsList| => AsCoordinates(boundsList[i]));
    forall i | 0 <= i < |boundsList|
      ensures BoundsLike(boundsList[i]) == BoundsLike(plain[i])
      ensures ItemBounds(boundsList[i]) == ItemBounds(plain[i])
    {
    }
    MergeCongruence(boundsList, plain, resolution, algorithm, returnRioBbox);
  }

  /** A single item gives its own bounds, whatever the merging algorithm: the algorithm is
      only looked at inside the fold. */
  lemma MergeSingleItem(item: BoundsSource, algorithm: string)
    requires ItemBounds(item).Success?
    ensures MergeBoundsSpec([item], None, algorithm, false) == Success(Format(ItemBounds(item).value, false))
  {
    assert [item][1..] == [];
    ReadableIsBoundsLike([item]);
  }

  /** With two or more readable items, an algorithm other than "union" or "intersection" fails;
      and an item that fails the shape check fails the call before anything is merged. */
  lemma MergeRejects(boundsList: seq<BoundsSource>, resolution: Option<real>, algorithm: string, returnRioBbox: bool)
    ensures |boundsList| >= 2 && AllReadable(boundsList) && algorithm != "union" && algorithm != "intersection"
      ==> MergeBoundsSpec(boundsList, resolution, algorithm, returnRioBbox) == Failure(UnknownAlgorithm)
    ensures (exists i | 0 <= i < |boundsList| :: !BoundsLike(boundsList[i]))
      ==> MergeBoundsSpec(boundsList, resolution, algorithm, returnRioBbox) == Failure(NotBoundsLike)
  {
    if |boundsList| >= 2 && AllReadable(boundsList) {
      ReadableIsBoundsLike(boundsList);
      assert ItemBounds(boundsList[1..][0]).Success?;
    }
  }

  /** The resolution step: right and top are moved by the remainder of the span, left and
      bottom are kept; a zero resolution fails. */
  lemma MergeResolution(boundsList: seq<BoundsSource>, resolution: real, algorithm: string)
    ensures var plain := MergeBoundsSpec(boundsList, None, algorithm, true);
      var padded := MergeBoundsSpec(boundsList, Some(resolution), algorithm, true);
      && (plain.Failure? ==> padded == plain)
      && (plain.Success? && resolution == 0.0 ==> padded == Failure(ZeroResolution))
      && (plain.Success? && resolution != 0.0 ==>
            && plain.value.AsBoundingBox?
            && padded == Success(AsBoundingBox(PadToResolution(plain.value.box, resolution))))
  {
  }

  /** The tuple and the BoundingBox carry the same four values, in the order left, bottom,
      right, top. */
  lemma MergeOutputForms(boundsList: seq<BoundsSource>, resolution: Option<real>, algorithm: string)
    ensures var t := MergeBoundsSpec(boundsList, resolution, algorithm, false);
      var b := MergeBoundsSpec(boundsList, resolution, algorithm, true);
      && (t.Failure? <==> b.Failure?)
      && (t.Failure? ==> t == b)
      && (t.Success? ==>
            && b.value.AsBoundingBox?
            && t.value == AsTuple([b.value.box.left, b.value.box.bottom, b.value.box.right, b.value.box.top]))
  {
  }

  /** No edge moves inward for a positive resolution: right and top move out by less than one
      resolution step, left and bottom stay; for a negative resolution right and top move in. */
  lemma PadToResolutionMoves(b: Bounds, resolution: real)
    requires resolution != 0.0
    ensures var p := PadToResolution(b, resolution);
      && p.left == b.left && p.bottom == b.bottom
      && (resolution > 0.0 ==> b.right <= p.right < b.right + resolution && b.top <= p.top < b.top + resolution)
      && (resolution < 0.0 ==> b.right + resolution < p.right <= b.right && b.top + resolution < p.top <= b.top)
  {
  }

  lemma WholeShift(k: int, y: real)
    ensures IsWhole(k as real + y) <==> IsWhole(y)
  {
    if IsWhole(k as real + y) {
      assert y == ((k as real + y).Floor - k) as real;
    }
    if IsWhole(y) {
      assert k as real + y == (k + y.Floor) as real;
    }
  }

  /** The padded span is a whole number of resolution steps only when the remainder m of the
      original span is 0 or half a step: the new span is span + m, not the next multiple. */
  lemma PaddedSpanMultiple(left: real, right: real, resolution: real)
    requires resolution > 0.0
    ensures var m := PyMod(right - left, resolution);
      IsWhole((right + m - left) / resolution) <==> m == 0.0 || 2.0 * m == resolution
  {
    var span := right - left;
    var m := PyMod(span, resolution);
    var k := Floor(span / resolution);
    assert 0.0 <= m < resolution;
    assert (span - m) / resolution == k as real;
    DivTimes(span - m, resolution);
    assert span == k as real * resolution + m;
    var y := 2.0 * m / resolution;
    assert (right + m - left) / resolution == k as real + y;
    WholeShift(k, y);
    HalfStepQuotient(2.0 * m, resolution);
  }

  /** For 0 <= n < 2d, n / d is whole exactly when n is 0 or d. */
  lemma HalfStepQuotient(n: real, d: real)
    requires 0.0 <= n < 2.0 * d
    ensures IsWhole(n / d) <==> n == 0.0 || n == d
  {
    QuotientBelowTwo(n, d);
    WholeBelowTwo(n / d);
    QuotientIsZeroOrOne(n, d);
  }

  lemma QuotientBelowTwo(n: real, d: real)
    requires 0.0 <= n < 2.0 * d
    ensures 0.0 <= n / d < 2.0
  {
    var y := n / d;
    DivTimes(n, d);
    if y < 0.0 {
      MulStrict(y, 0.0, d);
    }
    if y >= 2.0 {
      MulMonotone(2.0, y, d);
    }
  }

  lemma WholeBelowTwo(y: real)
    requires 0.0 <= y < 2.0
    ensures IsWhole(y) <==> y == 0.0 || y == 1.0
  {
  }

  lemma QuotientIsZeroOrOne(n: real, d: real)
    requires d > 0.0
    ensures n / d == 0.0 <==> n == 0.0
    ensures n / d == 1.0 <==> n == d
  {
    DivTimes(n, d);
  }


  /** The padding of lines 155-156 does not make the extent a multiple of the resolution in
      general: a 10-unit span at resolution 3 becomes 11, not 12. */
  lemma PaddingNotAMultiple()
    ensures PadToResolution(Bounds(0.0, 0.0, 10.0, 10.0), 3.0) == Bounds(0.0, 0.0, 11.0, 11.0)
    ensures !IsWhole(11.0 / 3.0)
  {
    assert 3.0 <= 10.0 / 3.0 < 4.0;
    assert Floor(10.0 / 3.0) == 3;
    assert 3.0 < 11.0 / 3.0 < 4.0;
  }
}
