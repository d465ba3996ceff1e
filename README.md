# projtools: a verified model of the CRS and bounds helpers

This project models the core of `geoutils/projtools.py`, the coordinate-reference-system
helpers of geoutils, and proves what its functions promise:

- **align_bounds** (module `Align`). The bounds are snapped onto the lattice of a reference affine
  transform. Left and top are moved with `floor` from the grid origin. Right and bottom are moved
  with `ceil` from the new left and top.
- **bounds2poly** (module `BoundsPoly`). A bounds-bearing value becomes a four-corner polygon.
  The value may be an object with `total_bounds`, an object with `bounds`, or a list or tuple of
  four numbers. The object's own `.crs` replaces the explicit input CRS, so an object with
  bounds but no `.crs` attribute fails once its four values are unpacked. When both an input CRS
  and an output CRS are known, the corners go through a point transformer.
- **merge_bounds** (module `Merge`, with properties in `MergeProperties`). Every item is checked
  for bounds. The items' polygons are folded by union or intersection. The envelope of the
  result goes into a dictionary, and the right and top entries may be padded by the resolution.
  The result is returned as a tuple or as a rasterio `BoundingBox`. It is modelled twice: as
  specification functions, and as methods with the source's loops that are proved equal to them.
- **utm_to_epsg and latlon_to_utm** (module `Zones`). The zone string is normalised with
  `str(int(utm[:-1])) + utm[-1].upper()` and then looked up in the WGS 84 / UTM registry. Zones
  1 to 60 in the N series give EPSG 32601 to 32660, and in the S series 32701 to 32760.
  latlon_to_utm has half-open range checks, and the zone is the last word of the first CRS name
  the database returns.

`Geometry` holds the shared values (points, bounds, CRS descriptors) and the real-number versions
of Python's `math.floor`, `math.ceil` and float `%`. `Wrappers` holds `Option` and `Result`.
Every exception the model keeps becomes a `Failure` with its own error constructor; the others
are listed under "## Left out".

The code and the written intent disagree in one place, and the model follows the code.
- The docstring of `merge_bounds` (line 120) says the resolution step makes the extent a
  multiple of the resolution.
- Lines 155-156 instead add `span % resolution` to the right and top edges.
- `MergeProperties.PaddedSpanMultiple` proves that, for a positive resolution, the padded span is
  a whole number of steps exactly when the remainder is zero or half a step.
- `MergeProperties.PaddingNotAMultiple` works an example: a span of 10 at resolution 3 becomes 11.

## Model

| member | source | states |
|---|---|---|
| Geometry.Floor | geoutils/projtools.py:189 | `math.floor`: the greatest integer not above x, and x itself when x is whole |
| Geometry.Ceil | geoutils/projtools.py:190 | `math.ceil`: the least integer not below x, and x itself when x is whole |
| Geometry.PyMod | geoutils/projtools.py:155 | Python float `%`: the remainder takes the divisor's sign, lies strictly within one divisor of zero, and the dividend minus it is floor(x / m) multiples of m |
| Align.AlignBounds | geoutils/projtools.py:183-194 | no contract of its own: Align.AlignOnLattice, Align.AlignPadding, Align.AlignContains and Align.AlignIdempotent state what it promises |
| Align.SnapAxisOnLattice | geoutils/projtools.py:189-190 | both snapped edges of one axis are whole numbers of pixels from the origin, and the snapped span is a whole number of pixels |
| Align.AlignOnLattice | geoutils/projtools.py:167-194 | the output lies on the reference lattice: left, right, top and bottom are whole pixels from the grid origin, and width and height are whole pixels |
| Align.AlignPadding | geoutils/projtools.py:189-192 | every edge moves by less than one pixel, outward along its axis, for either sign of the resolutions |
| Align.SnapStartOutward | geoutils/projtools.py:189 | the floor-snapped edge moves against the resolution's direction (down for a positive step, up for a negative one) |
| Align.SnapEndOutward | geoutils/projtools.py:190 | the ceil-snapped edge moves along the resolution's direction |
| Align.AlignContains | geoutils/projtools.py:175-192 | the output contains the input: for xres > 0, left' <= left and right' >= right; for north-up yres < 0, top' >= top and bottom' <= bottom; mirrored for the other signs |
| Align.AlignFixesOnGrid | geoutils/projtools.py:189-192 | bounds already on the grid are returned unchanged |
| Align.AlignIdempotent | geoutils/projtools.py:167-194 | aligning twice gives the same bounds as aligning once |
| Zones.LastField | geoutils/projtools.py:43 | `split(" ")[-1]`: a space-free suffix of the name, preceded by a space unless it is the whole name |
| Zones.LatLonToUtm | geoutils/projtools.py:35-45 | longitude outside [-180, 180) fails first, then latitude outside [-90, 90); otherwise the query's first name's last word, and NoUtmCrsFound (the IndexError of `[0]`) exactly when the in-range query is empty |
| Zones.ParseInt | geoutils/projtools.py:58 | no contract of its own: `int()` on an optional sign and ASCII digits; Zones.ParseShowInt and Zones.ParseDigits fix its values |
| Zones.ParseDigits | geoutils/projtools.py:58 | `int()` of a plain digit string is the value of its digits |
| Zones.ShowInt | geoutils/projtools.py:58 | `str(n)`: non-empty, starts with '-' exactly for negative n, is otherwise digits, and has no leading zero; for negative n it is '-' followed by `str(-n)` |
| Zones.Upper | geoutils/projtools.py:58 | `upper()` on one character: the result is never an ASCII lower-case letter, lower-case letters map to their capitals, and other characters are unchanged |
| Zones.ShowNat | geoutils/projtools.py:58 | `str(n)` of a natural number: non-empty decimal digits with no leading zero |
| Zones.ParseShowInt | geoutils/projtools.py:58 | `int(str(n)) == n` for every integer |
| Zones.ShowIntInjective | geoutils/projtools.py:58 | distinct integers have distinct decimal strings |
| Zones.RegistryFrom | geoutils/projtools.py:61 | a registry search that starts at zone `from` finds only codes in 32600+from..32660 or 32700+from..32760 |
| Zones.UtmZoneEpsg | geoutils/projtools.py:61 | the registry knows only the codes 32601..32660 and 32701..32760 |
| Zones.NormaliseZone | geoutils/projtools.py:58 | fails with NotAnInteger exactly when `int` cannot read all but the last character; otherwise the number part is `str` of that integer, so it reads back as the same integer and has no leading zero, after a '-' sign either (the "homogenize" of line 57), and the last character is the upper-cased letter |
| Zones.NormaliseZoneCanonical | geoutils/projtools.py:57-58 | two zone strings whose number parts read as the same integer and whose last characters upper-case alike normalise to the same zone |
| Zones.UtmToEpsg | geoutils/projtools.py:48-63 | every code returned is a WGS 84 / UTM code (32601..32660 or 32701..32760), and NotAnInteger is raised exactly when the number part cannot be read |
| Zones.RegistryFromCanonical | geoutils/projtools.py:61 | looking up a canonical "<zone><letter>" name in the registry gives 32600 + zone for N and 32700 + zone for S when 1 <= zone <= 60, and nothing otherwise |
| Zones.UtmToEpsgMeaning | geoutils/projtools.py:57-63 | utm_to_epsg fails with NotAnInteger when `int` cannot read all but the last character; otherwise the code is fixed by that integer and the upper-cased last character, or the call fails with UnknownCrs |
| Zones.UtmIgnoresLeadingZero | geoutils/projtools.py:57-58 | "01N" and "1N" give the same result: a leading zero of a digit zone number is ignored |
| Zones.UtmIgnoresLetterCase | geoutils/projtools.py:58 | the hemisphere letter's case is ignored |
| Zones.UtmZoneOneExamples | geoutils/projtools.py:57-63 | "1N" and "01n" give 32601, and "1S" gives 32701 |
| Zones.UtmZoneSixtyExamples | geoutils/projtools.py:57-63 | "60N" gives 32660 and "60S" gives 32760 |
| Zones.UtmZoneEightExamples | geoutils/projtools.py:57-63 | "08s" and "8S" give 32708 |
| Zones.UtmUnknownZoneExamples | geoutils/projtools.py:57-63 | "61N", "61E", "100N" and "0N" are unknown CRSs |
| Zones.UtmNotANumberExamples | geoutils/projtools.py:58 | "N" and "xN" fail in `int` before any lookup |
| BoundsPoly.ObjectExtent | geoutils/projtools.py:82-87 | no contract of its own: total_bounds if the object has it, else bounds |
| BoundsPoly.SourceExtent | geoutils/projtools.py:81-95 | total_bounds is read first, then bounds, each together with the object's own CRS; a list or tuple is read with the explicit input CRS; anything else fails with NotABoundsSource; an extent (an object's or a list's) of other than four values fails with WrongValueCount of its length; an object without a `.crs` attribute fails with MissingCrs, but only after its four values are unpacked |
| BoundsPoly.Corners | geoutils/projtools.py:97 | no contract of its own: the ring order is stated by BoundsPoly.Bounds2PolyCorners |
| BoundsPoly.Bounds2Poly | geoutils/projtools.py:97-104 | a polygon always has four corners |
| BoundsPoly.Bounds2PolyCorners | geoutils/projtools.py:81-104 | the call fails exactly when reading the source fails, with the same error; the ring is (xmin,ymin), (xmax,ymin), (xmax,ymax), (xmin,ymax), and each corner goes through the transformer exactly when both CRSs are known |
| BoundsPoly.ObjectCrsOverridesInput | geoutils/projtools.py:82-100 | for an object, the explicit input CRS is ignored; an object whose `.crs` is None is never reprojected; an object without a `.crs` attribute fails |
| BoundsPoly.TotalBoundsFirst | geoutils/projtools.py:82-88 | an object with total_bounds gives the same polygon whatever its bounds are |
| BoundsPoly.Envelope | geoutils/projtools.py:149 | shapely's `.bounds`: contains every vertex, and each edge is attained by some vertex |
| BoundsPoly.EnvelopeOfCorners | geoutils/projtools.py:97-102 | the envelope of the four-corner polygon is the extent with its edges in order |
| Merge.BoundsLike | geoutils/projtools.py:130 | no contract of its own: Merge.CheckItems and MergeProperties.ReadableIsBoundsLike state it |
| Merge.ItemBounds | geoutils/projtools.py:139 | `bounds2poly(item).bounds`: fails exactly when reading the item fails, with the same error; otherwise the extent read, with its edges put in order |
| Merge.Unite | geoutils/projtools.py:142 | the bounds of a union: a box holding every point of both operands, each edge taken from one of them |
| Merge.Meet | geoutils/projtools.py:144 | no contract of its own: the pairwise meet of two boxes, used by Merge.Intersect |
| Merge.Intersect | geoutils/projtools.py:144 | the bounds of an intersection: an ordered box holding exactly the points of both operands, or empty exactly when no point lies in both |
| Merge.FoldItems | geoutils/projtools.py:138-146 | no contract of its own: MergeProperties.FoldUnion, MergeProperties.FoldIntersection and MergeProperties.MergeRejects state it |
| Merge.MergeItems | geoutils/projtools.py:135-146 | no contract of its own: Merge.MergePolygons is proved equal to it |
| Merge.PadToResolution | geoutils/projtools.py:154-156 | no contract of its own: MergeProperties.PadToResolutionMoves and MergeProperties.PaddedSpanMultiple state it |
| Merge.Format | geoutils/projtools.py:158-162 | no contract of its own: MergeProperties.MergeOutputForms states it |
| Merge.Finish | geoutils/projtools.py:149-164 | no contract of its own: MergeProperties.MergeResolution and MergeProperties.MergeIntersection state it |
| Merge.MergeBoundsSpec | geoutils/projtools.py:107-164 | no contract of its own: the specification the MergeProperties lemmas are about, and that Merge.MergeBounds is proved equal to |
| Merge.CheckItems | geoutils/projtools.py:129-133 | the loop accepts exactly when every item has bounds or total_bounds, or is a list or tuple |
| Merge.MergePolygons | geoutils/projtools.py:135-146 | the loop gives the same result as folding the items into the first item's polygon, including the error of the first bad item and of an unknown algorithm |
| Merge.BoundsDict | geoutils/projtools.py:149-156 | the dictionary holds left, bottom, right and top, with right and top padded when a resolution is given; a zero resolution fails, and nothing else does |
| Merge.MergeBounds | geoutils/projtools.py:107-164 | the method returns what merge_bounds returns or raises, for every input |
| MergeProperties.ReadableIsBoundsLike | geoutils/projtools.py:129-135 | an item that bounds2poly can read passes the shape check |
| MergeProperties.MergeOfReadable | geoutils/projtools.py:135-164 | when every item is readable, merge_bounds is the fold from the first extent, followed by the output step |
| MergeProperties.FoldUnion | geoutils/projtools.py:138-142 | folding by union gives the envelope of the accumulator and of every extent |
| MergeProperties.FoldIntersectionEmpty | geoutils/projtools.py:143-144 | once the intersection is empty, it stays empty |
| MergeProperties.FoldIntersection | geoutils/projtools.py:138-144 | folding by intersection gives the common box of all extents when it is not reversed, and the empty geometry otherwise |
| MergeProperties.CommonBoxOrdered | geoutils/projtools.py:144 | the common box is ordered exactly when every pair of extents overlaps |
| MergeProperties.MergeUnion | geoutils/projtools.py:107-162 | "union" returns (least left, least bottom, greatest right, greatest top) over all items |
| MergeProperties.MergeIntersection | geoutils/projtools.py:107-162 | "intersection" returns (greatest left, greatest bottom, least right, least top) exactly when the extents pairwise overlap, and has no bounds otherwise |
| MergeProperties.FoldCongruence | geoutils/projtools.py:138-146 | the fold depends only on the extents of the items |
| MergeProperties.MergeCongruence | geoutils/projtools.py:127-164 | two lists whose items agree on the shape check and on their extents merge alike |
| MergeProperties.MergeIgnoresSourceKind | geoutils/projtools.py:81-91 | the result and the error are the same when each object with a `.crs` attribute is replaced by a plain list of its extent |
| MergeProperties.MergeSingleItem | geoutils/projtools.py:135-138 | a single readable item gives its own bounds, whatever the algorithm name |
| MergeProperties.MergeRejects | geoutils/projtools.py:129-146 | an item without bounds fails the call; with two or more readable items, an algorithm other than "union" or "intersection" fails |
| MergeProperties.MergeResolution | geoutils/projtools.py:153-156 | the resolution step keeps failures, fails on a zero resolution, and otherwise pads the unpadded result |
| MergeProperties.MergeOutputForms | geoutils/projtools.py:158-162 | the tuple and the BoundingBox carry the same four values in the order left, bottom, right, top, and they fail alike |
| MergeProperties.PadToResolutionMoves | geoutils/projtools.py:154-156 | left and bottom stay; for a positive resolution, right and top move out by less than one step; for a negative one, they move in by less than one step |
| MergeProperties.PaddedSpanMultiple | geoutils/projtools.py:155-156 | for a positive resolution, the padded span is a multiple of it exactly when the remainder is 0 or half a step |
| MergeProperties.PaddingNotAMultiple | geoutils/projtools.py:155-156 | (0, 0, 10, 10) at resolution 3 becomes (0, 0, 11, 11), and 11 is not a multiple of 3 |

## Left out

- reproject_points, reproject_to_latlon, reproject_from_latlon, reproject_shape, compare_proj and _get_bounds_projected: these are thin calls into pyproj and shapely. Inside bounds2poly, the point transformer is a function parameter.
- The pyproj database query of latlon_to_utm (`query_utm_crs_info`) is a function parameter that returns the CRS names in database order.
- The pyproj CRS registry behind `pyproj.CRS(...).to_epsg()` is modelled only as the 120 WGS 84 / UTM zone names. Other names it might accept are not modelled.
- Python's `int()` on strings: surrounding whitespace, `_` separators and non-ASCII digits are not modelled. Only an optional sign followed by ASCII digits is read.
- `str.upper()` maps only ASCII letters. Non-ASCII case mappings are not modelled.
- The `isinstance` type checks (latlon_to_utm lines 29-33, and merge_bounds line 127 on the list itself) and the unpacking of `src_bounds` into four values in align_bounds (line 183) are not modelled. Dafny's types rule out the inputs they reject: a `Bounds` always holds exactly four values.
- Floating point: all coordinates are real numbers, so rounding in `/`, `floor`, `ceil` and `%` is not modelled.
- Align.AlignBounds: requires non-zero resolutions; the source raises ZeroDivisionError for a zero one.
- Shapely's union and intersection are modelled by their bounding boxes only: the union of boxes as their envelope, and the intersection of closed boxes as their common box (empty when the boxes are apart). The full geometry is not modelled.
- When the merged geometry is empty, shapely returns no usable bounds. The model reports this as the EmptyResult failure.
- CRS mismatches between merged items are not checked, as in the source.
