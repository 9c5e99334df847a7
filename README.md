# H3 polygon algorithms in Dafny

This project models the polygon core of the H3 geospatial library: the loop
algorithms that `polygonAlgos.h` writes once over an abstract edge iterator
(`pointInside`, `segmentIntersects`, `bboxFrom`, `isClockwise`), instantiated
for the array-backed `GeoLoop`, and the polygon layer of `polygon.c` that
combines an outer loop and its holes (`bboxesFromGeoPolygon`,
`pointInsidePolygon`, `geoLoopInsidePolygon`, `geoLoopIntersectsPolygon`).

Every C function is a Dafny `method` that follows the source's loop step by
step. Each method is proved against a specification function or predicate.
Lemmas then state the properties the library promises about that
specification. Concrete lemmas replay the library's polygon tests for the
array-backed loop: every `pointInside`, `bboxFrom`, `isClockwise`,
`geoLoopInsidePolygon` and `geoLoopIntersectsPolygon` case, and the
edge-touch, vertex-touch and vertex-match `segmentIntersects` cases. The
three segment cases against the San Francisco loop
(src/apps/testapps/testPolygon.c:158-178) have no lemma.

- `geo.dfy` (module `Geo`): coordinates in radians as `real`, and bounding boxes. It holds the exact values of `DBL_EPSILON`, `M_PI` and `DBL_MAX`, the `NORMALIZE_LNG` macro, and the box and orientation helpers the algorithms call. It also holds binary64 round-to-nearest-even, which the `±DBL_EPSILON` tie-break nudges go through (`PlusEps`, `MinusEps`).
- `polygon_algos.dfy` (module `PolygonAlgos`): the four loop algorithms.
  - The ray test is a fold over the edges (`RayScan`), because each vertex tie nudges the query point for the edges that follow.
  - `segmentIntersects` is characterised edge by edge (`SegmentMeetsLoop`).
  - `bboxFrom` is running extrema (`BBoxOf`).
  - `isClockwise` is a shoelace sum (`Clockwise`).
- `polygon.dfy` (module `Polygon`): the polygon layer. `geoLoopIntersectsPolygon` is given twice: as written, and corrected (see Findings).
- `loop_fixtures.dfy`, `polygon_fixtures.dfy`: the loops and polygons of the tests (the San Francisco loop, the unit square, the wedge, the loop across the antimeridian, the touch triangle, the square with one hole and with two holes), each test case as a lemma about the model.

A loop is a `seq<LatLng>`. Its edge `i` runs from vertex `i` to `Next(loop, i)`, the following vertex or, for the last one, the first. This is the wrap-around edge convention of the `GeoLoop` iteration. One consequence is that a one-vertex loop has a single edge from the vertex to itself.

## Model

| member | source | states |
|---|---|---|
| Geo.NormalizeLng | src/h3lib/include/polygonAlgos.h:57-59 | In transmeridian mode a longitude in (-π, π] maps into [0, 2π); it moves by a full turn exactly when it was negative. Outside that mode it is unchanged. |
| Geo.Ulp | src/h3lib/include/polygonAlgos.h:106-107 | The gap between adjacent doubles in the binade of a positive value: EPS on [1, 2), 2 EPS on [2, 4), at most EPS below 2. |
| Geo.RoundToMultiple | src/h3lib/include/polygonAlgos.h:106-107 | Rounding to a multiple of the gap moves a value by at most half a gap. |
| Geo.RoundToNearest | src/h3lib/include/polygonAlgos.h:106-107 | Binary64 rounding keeps 0 and moves any other value by at most half the gap of its binade. |
| Geo.RoundKeepsEpsGrid | src/h3lib/include/polygonAlgos.h:106-107 | Every whole multiple of EPS below 2 in magnitude is a double: rounding returns it unchanged. |
| Geo.RoundTiesToEven | src/h3lib/include/polygonAlgos.h:120-122 | A value halfway between two multiples of the gap rounds to the even one, from either side. This is how `lng -= DBL_EPSILON` can leave a longitude in [2, 4) where it was. |
| Geo.PlusEps | src/h3lib/include/polygonAlgos.h:105-107 | `lat + DBL_EPSILON` in binary64 never falls below lat and rises by at most 2 EPS. It rises strictly when lat + EPS is below 2 in magnitude. |
| Geo.MinusEps | src/h3lib/include/polygonAlgos.h:120-122 | `lng - DBL_EPSILON` in binary64 never rises above lng and falls by at most 2 EPS. It falls strictly when lng - EPS is below 2 in magnitude. |
| PolygonAlgos.Next | src/h3lib/lib/polygon.c:115-117 | The edge after vertex i ends at vertex i + 1, or at vertex 0 for the last vertex. |
| PolygonAlgos.NextIsModular | src/h3lib/lib/polygon.c:115-117 | That end vertex is `loop[(i + 1) % n]`, the index the code computes. |
| PolygonAlgos.SouthFirst | src/h3lib/include/polygonAlgos.h:88-94 | The edge's endpoints in south-to-north order; the pair is the same edge, possibly swapped. |
| PolygonAlgos.PointInside | src/h3lib/include/polygonAlgos.h:68-141 | The loop answers exactly the ray-test specification `LoopContains`. A point outside the box, or any point tested against an empty loop, is not contained. |
| PolygonAlgos.RayStepSkips | src/h3lib/include/polygonAlgos.h:106-114 | An edge whose latitude range misses the (possibly nudged) query latitude changes only the latitude and leaves parity and longitude alone. |
| PolygonAlgos.RayStepTests | src/h3lib/include/polygonAlgos.h:106-137 | An edge whose range holds the nudged latitude first nudges the longitude. It then flips parity exactly when its endpoint latitudes differ and its crossing longitude lies east of the nudged query longitude. A flat edge makes the ratio at line 130 0/0, a NaN in C, and `testLng > lng` is then false: it never flips. |
| PolygonAlgos.RayParity | src/h3lib/include/polygonAlgos.h:75-140 | After k edges the answer is the initial answer flipped once per edge whose crossing lies east of the ray origin. |
| PolygonAlgos.LoopContainsIsOddCrossings | src/h3lib/include/polygonAlgos.h:71-140 | Containment holds iff the point is in the box and the number of crossings is odd; an edgeless scan therefore answers false. |
| PolygonAlgos.RayNudges | src/h3lib/include/polygonAlgos.h:106-123 | After k edges the query latitude has risen, by at most 2 EPS per latitude tie, and the longitude has fallen, by at most 2 EPS per longitude tie. A rounded step may be no move at all. |
| PolygonAlgos.RayMonotone | src/h3lib/include/polygonAlgos.h:106-123 | Along the scan the query latitude never decreases and the query longitude never increases. |
| PolygonAlgos.NorthOfEveryVertex | src/h3lib/include/polygonAlgos.h:95-112 | A query at or north of every vertex keeps its parity through the whole scan. Once its latitude has tied and been nudged, it lies strictly north of every vertex. |
| PolygonAlgos.NorthOfEveryVertexNotContained | src/h3lib/include/polygonAlgos.h:99-104 | pointInside answers false for a query at or north of every vertex of the loop, so a point at the north pole is contained in no loop. |
| PolygonAlgos.Lats | src/h3lib/include/polygonAlgos.h:298-302 | The vertex latitudes, in loop order. |
| PolygonAlgos.Lngs | src/h3lib/include/polygonAlgos.h:299-307 | The vertex longitudes, in loop order. |
| PolygonAlgos.WideEdgeSomewhere | src/h3lib/include/polygonAlgos.h:308-311 | The scan flag after all edges is set iff some edge, the closing one included, spans more than π. |
| PolygonAlgos.BBoxFrom | src/h3lib/include/polygonAlgos.h:273-318 | The loop computes `BBoxOf`. That is the all-zero box for an empty loop; otherwise latitude extrema, plus longitude extrema or, with a wide edge, the swapped least-positive and greatest-negative longitudes. |
| PolygonAlgos.MinFromIsLeast | src/h3lib/include/polygonAlgos.h:300-301 | The running minimum is at most its start and every value seen, and equals the start or one of the values. |
| PolygonAlgos.MaxFromIsGreatest | src/h3lib/include/polygonAlgos.h:302-303 | The running maximum is at least its start and every value seen, and equals the start or one of the values. |
| PolygonAlgos.MinPositiveFromIsLeastPositive | src/h3lib/include/polygonAlgos.h:306 | The running minimum of positive longitudes is at most every positive value seen and equals the start or one of them. |
| PolygonAlgos.MaxNegativeFromIsGreatestNegative | src/h3lib/include/polygonAlgos.h:307 | The running maximum of negative longitudes is at least every negative value seen and equals the start or one of them. |
| PolygonAlgos.BBoxOfLatitudes | src/h3lib/include/polygonAlgos.h:275-318 | For a non-empty loop of finite coordinates, south and north bound every vertex latitude and each is attained by a vertex. |
| PolygonAlgos.BBoxOfLongitudes | src/h3lib/include/polygonAlgos.h:275-318 | Without a wide edge, west and east bound every vertex longitude and each is attained by a vertex. |
| PolygonAlgos.BBoxOfTransmeridianLongitudes | src/h3lib/include/polygonAlgos.h:309-316 | With a wide edge, east is the greatest negative longitude and west the least positive one. Each is attained when such a longitude exists, and is the `DBL_MAX` sentinel otherwise; east < 0 < west. |
| PolygonAlgos.BBoxOfTransmeridianIffWideEdge | src/h3lib/include/polygonAlgos.h:308-317 | For a non-empty loop the box is transmeridian (east < west) iff the loop has an edge wider than π. |
| PolygonAlgos.EdgeTerms | src/h3lib/include/polygonAlgos.h:341-343 | One shoelace term per edge: the longitude step times the latitude sum, in the chosen frame. |
| PolygonAlgos.ShoelacePrefixStep | src/h3lib/include/polygonAlgos.h:341-343 | Adding edge i's term to the running sum gives the sum of the first i + 1 terms. |
| PolygonAlgos.ShoelaceWhole | src/h3lib/include/polygonAlgos.h:334-346 | The sum over every edge is the shoelace sum. |
| PolygonAlgos.WideEdgeWitness | src/h3lib/include/polygonAlgos.h:338-339 | An edge wider than π is a wide edge of the loop. Proof helper for IsClockwiseNormalized: a one-step unfolding. |
| PolygonAlgos.NoWideEdgeStep | src/h3lib/include/polygonAlgos.h:338-339 | An edge at most π wide extends the run of edges seen without a restart. Proof helper for IsClockwiseNormalized: a one-step unfolding. |
| PolygonAlgos.IsClockwiseNormalized | src/h3lib/include/polygonAlgos.h:327-347 | The answer is "the shoelace sum is positive". The sum is normalised when the caller asks for it or when some edge is wider than π, which is the single restart. |
| PolygonAlgos.IsClockwise | src/h3lib/include/polygonAlgos.h:355-357 | The answer is `Clockwise`: the sum, normalised exactly when the loop has a wide edge, is positive. |
| PolygonAlgos.Reverse | src/h3lib/include/polygonAlgos.h:327-357 | The loop listed in the opposite order. Proof helper for ReverseFlipsClockwise. |
| PolygonAlgos.SumNegatedReverse | src/h3lib/include/polygonAlgos.h:329-344 | Negating and reversing the terms negates their sum. Proof helper for ReverseFlipsClockwise. |
| PolygonAlgos.ShoelaceTermAntisymmetric | src/h3lib/include/polygonAlgos.h:341 | Walking an edge backwards negates its term. Proof helper for ReverseFlipsClockwise. |
| PolygonAlgos.ReverseEdgeTerms | src/h3lib/include/polygonAlgos.h:341 | Each inner edge term of the reversed loop is the negation of the mirrored term of the loop. Proof helper for ReverseFlipsClockwise. |
| PolygonAlgos.ReverseClosingTerm | src/h3lib/include/polygonAlgos.h:341 | The closing edge term of the reversed loop is the negation of the loop's closing term. Proof helper for ReverseFlipsClockwise. |
| PolygonAlgos.ReverseNegatesShoelaceSum | src/h3lib/include/polygonAlgos.h:329-344 | Reversing a non-empty loop negates its shoelace sum in either frame. |
| PolygonAlgos.ReversePreservesWideEdges | src/h3lib/include/polygonAlgos.h:338-339 | A loop and its reverse have wide edges alike, so both take the same frame. |
| PolygonAlgos.ReverseFlipsClockwise | src/h3lib/include/polygonAlgos.h:327-357 | The reversed loop is clockwise iff the loop's sum is negative. For a non-zero sum, exactly one of the two orders is clockwise. |
| PolygonAlgos.SegmentIntersects | src/h3lib/include/polygonAlgos.h:152-262 | The loop answers exactly `SegmentMeetsLoop`: the loop is not empty, the segment is not beyond one side of the box, and some unpruned edge reports a meeting. A meeting is a vertex coincidence (p0 only while no edge has been pruned), a collinear touch inside the other segment's span, or a strict crossing. The loop invariant states that the orientation carried over to the next edge is that edge's first-vertex orientation. |
| PolygonAlgos.SegmentMeetsLoopRejects | src/h3lib/include/polygonAlgos.h:154-261 | No meeting for an empty loop, for a segment wholly beyond one side of the box, or when every edge is pruned. |
| PolygonAlgos.MeetsAt | src/h3lib/include/polygonAlgos.h:180-259 | One reporting edge makes the whole loop meet the segment. Proof helper for the MeetsBy lemmas and the segment fixtures: a one-step unfolding. |
| PolygonAlgos.MeetsByEndpoint | src/h3lib/include/polygonAlgos.h:214-223 | A p1 coincidence on an unpruned edge, or a p0 coincidence before any pruned edge, is a meeting. |
| PolygonAlgos.MeetsByTouch | src/h3lib/include/polygonAlgos.h:226-249 | A zero orientation with the point inside the other segment's span, on an unpruned edge, is a meeting. |
| PolygonAlgos.MeetsByCrossing | src/h3lib/include/polygonAlgos.h:251-254 | Opposite orientations on both segments, on an unpruned edge, is a meeting. |
| PolygonAlgos.PrunedEdgeIsSilent | src/h3lib/include/polygonAlgos.h:207-211 | A pruned edge reports nothing and clears `first` for every later edge. Proof helper for SegmentIntersects: a one-step unfolding. |
| PolygonAlgos.UnprunedEdgeKeepsFirst | src/h3lib/include/polygonAlgos.h:207-214 | An unpruned edge leaves `first` as it was. Proof helper for SegmentIntersects: a one-step unfolding. |
| PolygonAlgos.QuietEdge | src/h3lib/include/polygonAlgos.h:214-258 | An unpruned edge on which every test fails reports nothing. Proof helper for SegmentIntersects and the segment fixtures: a one-step unfolding. |
| Polygon.BBoxesOf | src/h3lib/lib/polygon.c:50-55 | One box per loop: slot 0 is the outer loop's box and slot i + 1 is hole i's box. |
| Polygon.BBoxesFromGeoPolygon | src/h3lib/lib/polygon.c:50-55 | The first numHoles + 1 slots of the caller's array become `BBoxesOf`; every later slot is unchanged. |
| Polygon.PointInsidePolygon | src/h3lib/lib/polygon.c:66-85 | The answer is `InsidePolygon`: inside the outer loop and inside no hole, each against its own box. A contained point lies in the outer box. |
| Polygon.FirstHoleFrom | src/h3lib/lib/polygon.c:76-81 | The first hole from index j on that contains the point, or -1 when none does; every hole before it misses the point. |
| Polygon.InsidePolygonIffNoHole | src/h3lib/lib/polygon.c:66-85 | A point is inside the polygon iff it is in the outer loop and its first containing hole is -1. |
| Polygon.GeoLoopInsidePolygon | src/h3lib/lib/polygon.c:87-133 | The answer is `LoopInsidePolygon`: every vertex inside the polygon and the loop not empty. For two or more vertices, in addition, no hole vertex lies in the loop (checked from three vertices on) and no edge, the closing one included, meets the outer loop or a hole. |
| Polygon.HoleVertexInsideLoop | src/h3lib/lib/polygon.c:100-112 | The hole-vertex scan answers whether some vertex of some hole lies inside the candidate loop, tested against the loop's own box. |
| Polygon.EdgeClearOfPolygon | src/h3lib/lib/polygon.c:119-129 | A candidate edge is clear iff it meets neither the outer loop nor any hole, each against its own box. |
| Polygon.EmptyLoopNotInside | src/h3lib/lib/polygon.c:95-97 | The empty loop is never inside. |
| Polygon.SingleVertexInside | src/h3lib/lib/polygon.c:90-97 | A one-vertex loop is inside iff its vertex is inside the polygon. |
| Polygon.HoleScan | src/h3lib/lib/polygon.c:143-168 | The tracked hole stays within -1 .. numHoles - 1. As written it never exceeds 0, so `bboxes[holeIndex]` always reads slot 0. |
| Polygon.FoundPersists | src/h3lib/lib/polygon.c:147-167 | Once a vertex decides the answer, later vertices do not undo it. |
| Polygon.UncoveredVertexDecides | src/h3lib/lib/polygon.c:165-167 | A vertex in the outer loop and in no hole makes the loop intersect. |
| Polygon.HoleVertexDecides | src/h3lib/lib/polygon.c:152-157 | A vertex in hole j that passes the guard with a different tracked hole makes the loop intersect. |
| Polygon.OutsideVertexStep | src/h3lib/lib/polygon.c:147-150 | A vertex outside the outer loop leaves the tracked hole untouched; it is not reset. |
| Polygon.HoleVertexStep | src/h3lib/lib/polygon.c:151-161 | A vertex in hole j that the guard lets through makes j the tracked hole. |
| Polygon.TrackedVerdict | src/h3lib/lib/polygon.c:170-193 | When no vertex decides, the answer is "two or more vertices and some edge meets the tracked loop, tested with the tracked box". |
| Polygon.EdgesIntersect | src/h3lib/lib/polygon.c:184-190 | The edge loop answers whether some candidate edge, the closing one included, meets the given loop. |
| Polygon.GeoLoopIntersectsPolygon | src/h3lib/lib/polygon.c:135-194 | The code as written computes `IntersectsVerdict` with the hole-index guard `j > 0` and the box `bboxes[holeIndex]`. |
| Polygon.GeoLoopIntersectsPolygonFixed | src/h3lib/lib/polygon.c:135-194 | The corrected code computes `IntersectsVerdict` with the vertex-index guard `i > 0` and the box `bboxes[holeIndex + 1]`. |
| Polygon.VertexInsideIntersects | src/h3lib/lib/polygon.c:147-167 | In both variants, a vertex inside the polygon makes the loop intersect. |
| Polygon.InsideImpliesIntersects | src/h3lib/lib/polygon.c:87-194 | In both variants, a loop that `geoLoopInsidePolygon` accepts also intersects. |
| Polygon.OutsidePrefix | src/h3lib/lib/polygon.c:143-149 | While every vertex so far lies outside the outer loop, the tracked hole stays -1. |
| Polygon.OutsideLoopEdgesDecide | src/h3lib/lib/polygon.c:170-193 | A loop with every vertex outside the outer loop intersects iff it has two or more vertices and an edge that meets the outer loop. |
| Polygon.AsWrittenReportsLaterHoles | src/h3lib/lib/polygon.c:154-157 | As written, any vertex in the outer loop whose first hole is 1 or later makes the loop intersect, whatever the other vertices are. |
| Polygon.TracksSingleHole | src/h3lib/lib/polygon.c:143-168 | With every vertex in hole k, the tracked hole is k from the first vertex on. This holds for every hole in the corrected variant and for hole 0 as written. |
| Polygon.SingleHoleEdgesDecide | src/h3lib/lib/polygon.c:170-193 | A loop wholly in hole k intersects iff it has two or more vertices and an edge meets that hole. The test uses the hole's own box when corrected, and slot 0 as written. |
| Polygon.IntendedHoleSticks | src/h3lib/lib/polygon.c:153-160 | With the corrected guard, once a vertex is in hole h, every later state either tracks h or has decided. |
| Polygon.IntendedTwoHoles | src/h3lib/lib/polygon.c:153-157 | With the corrected guard, two vertices in different holes make the loop intersect. |
| Polygon.IntendedOutsideThenHole | src/h3lib/lib/polygon.c:153-157 | With the corrected guard, a hole vertex after vertices outside the outer loop makes the loop intersect. |
| LoopFixtures.UnitSquareBox | src/apps/testapps/testPolygon.c:64-68 | bboxFrom of the unit square is [0, 1] x [0, 1]. |
| LoopFixtures.SouthWestCorner | src/apps/testapps/testPolygon.c:70-75 | The (0, 0) corner is not contained. |
| LoopFixtures.NorthWestCorner | src/apps/testapps/testPolygon.c:76-78 | The (1, 0) corner is not contained. |
| LoopFixtures.NorthEastCorner | src/apps/testapps/testPolygon.c:79-81 | The (1, 1) corner is not contained. |
| LoopFixtures.SouthEastCorner | src/apps/testapps/testPolygon.c:82-84 | The (0, 1) corner is contained. |
| LoopFixtures.WestEdgePoint | src/apps/testapps/testPolygon.c:97-100 | A point of the west edge is not contained. |
| LoopFixtures.NorthEdgePoint | src/apps/testapps/testPolygon.c:101-104 | A point of the north edge is not contained. |
| LoopFixtures.EastEdgePoint | src/apps/testapps/testPolygon.c:105-108 | A point of the east edge is contained. |
| LoopFixtures.SouthEdgePoint | src/apps/testapps/testPolygon.c:109-112 | A point of the south edge is contained. |
| LoopFixtures.UnitSquareNudges | src/apps/testapps/testPolygon.c:63-112 | The nudges of the unit-square tests are exact: 0 and 1 move by exactly EPS, north or west. |
| LoopFixtures.SfLoopBox | src/apps/testapps/testPolygon.c:48-49 | bboxFrom of the San Francisco loop is spanned by its extreme vertices. |
| LoopFixtures.SfNudges | src/apps/testapps/testPolygon.c:51-55 | At vertices 0 and 3 the northward nudge is exact, and the westward nudge is a tie that rounds back to the longitude itself. |
| LoopFixtures.SfVertexZero | src/apps/testapps/testPolygon.c:52-53 | Vertex 0 is not contained. |
| LoopFixtures.SfVertexThree | src/apps/testapps/testPolygon.c:54-55 | Vertex 3 is contained. |
| LoopFixtures.SfInside | src/apps/testapps/testPolygon.c:57-58 | The inside point (0.659, -2.136) is contained. |
| LoopFixtures.SfElsewhere | src/apps/testapps/testPolygon.c:59-60 | The point (1, 2) is not contained. |
| LoopFixtures.WedgeBox | src/apps/testapps/testPolygon.c:118-122 | bboxFrom of the wedge is [0, 1] x [0, 1]. |
| LoopFixtures.WedgeContainsMidpoint | src/apps/testapps/testPolygon.c:124-126 | The point (0.5, 0.5), at the longitude of a vertex, is contained. |
| LoopFixtures.AcrossAntimeridianBox | src/apps/testapps/testPolygon.c:130-142 | bboxFrom of the loop across the antimeridian is transmeridian, with east -π + 0.01 and west π - 0.01. |
| LoopFixtures.AcrossAntimeridianWestPoint | src/apps/testapps/testPolygon.c:144-145 | The point just west of the antimeridian is contained. |
| LoopFixtures.AcrossAntimeridianEastPoint | src/apps/testapps/testPolygon.c:146-147 | The point just east of the antimeridian is contained. |
| LoopFixtures.AcrossAntimeridianOutsidePoints | src/apps/testapps/testPolygon.c:148-155 | The points a tenth of a radian from the antimeridian, on either side, are not contained. |
| LoopFixtures.TouchTriangleBox | src/apps/testapps/testPolygon.c:193-201 | bboxFrom of the touch triangle is [0, 1] x [0, 1]. |
| LoopFixtures.DiagonalReports | src/h3lib/include/polygonAlgos.h:226-249 | The triangle's diagonal edge reports every segment from a point of it to (1, 0): a collinear touch within its span. Proof helper for SegmentFromEdgeMeets. |
| LoopFixtures.SegmentFromEdgeMeets | src/apps/testapps/testPolygon.c:203-204 | The segment from (0.5, 0.5), on an edge, to (1, 0) meets the triangle. |
| LoopFixtures.BeyondQuiet | src/h3lib/include/polygonAlgos.h:207-258 | No edge reports the segment from (1.01, 1.01) to (1, 0). Proof helper for CollinearBeyondEdgeMisses. |
| LoopFixtures.CollinearBeyondEdgeMisses | src/apps/testapps/testPolygon.c:205-207 | The segment from (1.01, 1.01), collinear with an edge but beyond it, to (1, 0) does not meet the triangle. |
| LoopFixtures.SegmentThroughVertexMeets | src/apps/testapps/testPolygon.c:221-222 | The segment from (1.5, 0.5) to (0.5, 1.5) passes through a vertex and meets the triangle. |
| LoopFixtures.SegmentNorthOfBoxMisses | src/apps/testapps/testPolygon.c:223-225 | The segment from (1.5, 0.5) to (2, 0), on a line through a vertex, does not meet the triangle. |
| LoopFixtures.SegmentFromSfVertexMeets | src/apps/testapps/testPolygon.c:180-189 | A segment from vertex 0 of the San Francisco loop meets the loop. |
| LoopFixtures.EmptyLoopBox | src/apps/testapps/testPolygon.c:426-437 | bboxFrom of a loop without vertices is the all-zero box. |
| LoopFixtures.SampleLoopBox | src/apps/testapps/testPolygon.c:401-410 | bboxFrom of the sample loop is (1.1, 0.7, 0.7, 0.2). |
| LoopFixtures.TransmeridianLoopBox | src/apps/testapps/testPolygon.c:412-424 | bboxFrom of the transmeridian sample loop has east -π + 0.2 and west π - 0.2. |
| LoopFixtures.ClockwiseTriangle | src/apps/testapps/testPolygon.c:504-521 | The test triangles, at either offset, are clockwise. |
| LoopFixtures.CounterClockwiseSquare | src/apps/testapps/testPolygon.c:523-532 | The test square listed counter-clockwise is not clockwise. |
| LoopFixtures.ClockwiseAcrossAntimeridian | src/apps/testapps/testPolygon.c:534-557 | The loop across the antimeridian is clockwise once normalised. |
| LoopFixtures.CounterClockwiseAcrossAntimeridian | src/apps/testapps/testPolygon.c:559-571 | The same loop listed the other way is not clockwise. |
| PolygonFixtures.RectBox | src/h3lib/include/polygonAlgos.h:273-318 | bboxFrom of any axis-aligned rectangle narrower than π is that rectangle. |
| PolygonFixtures.RectContainsInterior | src/h3lib/include/polygonAlgos.h:68-141 | Every point strictly inside such a rectangle is contained. |
| PolygonFixtures.InteriorSegmentMissesRect | src/h3lib/include/polygonAlgos.h:152-262 | A segment strictly inside a rectangle meets none of its sides. |
| PolygonFixtures.NestedRectMisses | src/apps/testapps/testPolygon.c:367-376 | No edge of a rectangle strictly inside another meets it. |
| PolygonFixtures.AxisSegmentsCross | src/h3lib/include/polygonAlgos.h:251-254 | A meridian segment and a parallel segment that each straddle the other's interior cross properly. |
| PolygonFixtures.SquareBoxes | src/apps/testapps/testPolygon.c:229-234 | bboxesFromGeoPolygon of the unit square is its single box. |
| PolygonFixtures.InnerSquareInside | src/apps/testapps/testPolygon.c:248-249 | The square [0.25, 0.75]^2 is inside. |
| PolygonFixtures.OverhangingSquaresNotInside | src/apps/testapps/testPolygon.c:250-253 | The square beyond the north-east corner, and the one overlapping it, are not inside. |
| PolygonFixtures.ZeroBoxNotInside | src/apps/testapps/testPolygon.c:291-305 | Given the all-zero box that the test hands over, the loop is not inside the non-convex polygon: every vertex fails the box check. |
| PolygonFixtures.SquareWithHoleBoxes | src/apps/testapps/testPolygon.c:259-267 | bboxesFromGeoPolygon of the square with its middle hole gives the two boxes, in order. |
| PolygonFixtures.AroundHoleNotInside | src/apps/testapps/testPolygon.c:281-282 | The square around the hole is not inside. |
| PolygonFixtures.InHoleNotInside | src/apps/testapps/testPolygon.c:283-284 | The square inside the hole is not inside. |
| PolygonFixtures.ThroughHoleNotInside | src/apps/testapps/testPolygon.c:285-286 | The rectangle through the hole is not inside, although each of its vertices is. |
| PolygonFixtures.SquaresWithVertexInsideIntersect | src/apps/testapps/testPolygon.c:335-340 | The inner square, and the square with one vertex inside, intersect the square in both variants. |
| PolygonFixtures.NorthOfSquareMisses | src/h3lib/lib/polygon.c:135-194 | In both variants, any rectangle wholly north of the unit square does not intersect it. |
| PolygonFixtures.OutsideSquareMisses | src/apps/testapps/testPolygon.c:337-338 | The square beyond the north-east corner does not intersect, in both variants. |
| PolygonFixtures.BandAcrossSquareIntersects | src/apps/testapps/testPolygon.c:341-343 | The band across the square with no vertex inside intersects, in both variants. |
| PolygonFixtures.TwoHolesBoxes | src/apps/testapps/testPolygon.c:348-361 | The boxes of the two-hole test polygon. |
| PolygonFixtures.InFirstHole | src/apps/testapps/testPolygon.c:348-361 | A point inside the first hole is in the outer loop, and hole 0 is its first hole. |
| PolygonFixtures.InSecondHole | src/apps/testapps/testPolygon.c:348-361 | A point inside the second hole is in the outer loop, and hole 1 is its first hole. |
| PolygonFixtures.AroundHoleIntersects | src/apps/testapps/testPolygon.c:363-374 | The loop around the first hole intersects, in both variants. |
| PolygonFixtures.RectInFirstHole | src/apps/testapps/testPolygon.c:348-361 | Every vertex of a rectangle strictly inside the first hole is in that hole. |
| PolygonFixtures.RectInSecondHole | src/apps/testapps/testPolygon.c:348-361 | Every vertex of a rectangle strictly inside the second hole is in that hole. |
| PolygonFixtures.InFirstHoleMisses | src/apps/testapps/testPolygon.c:367-376 | The loop inside the first hole does not intersect, in both variants. |
| PolygonFixtures.InBothHolesIntersects | src/apps/testapps/testPolygon.c:371-378 | The loop with vertices in both holes intersects, in both variants. |
| PolygonFixtures.SecondHoleCounterexample | src/h3lib/lib/polygon.c:154-157 | A square inside the second hole intersects as written and does not intersect when corrected. |
| PolygonFixtures.SampleLoopBoxes | src/apps/testapps/testPolygon.c:439-451 | bboxesFromGeoPolygon of the sample loop without holes gives its one box. |
| PolygonFixtures.SampleHoleBoxes | src/apps/testapps/testPolygon.c:453-473 | bboxesFromGeoPolygon of the sample loop and its hole gives the two expected boxes, in order. |
| PolygonFixtures.HoleLoopBox | src/apps/testapps/testPolygon.c:457-464 | bboxFrom of the test hole, whose last vertex repeats its first, is (1.0, 0.9, 0.7, 0.3). |

## Left out

- The linked-list loop representation, its instantiation of the loop algorithms, and `normalizeMultiPolygon` with the linked-loop constructors and destructors: linkedGeo.c is not part of this model.
- IEEE-754 arithmetic outside the tie-break nudges. The `±DBL_EPSILON` nudges of the ray test round to the nearest double, with ties to even, for magnitudes up to 4; overflow and subnormals are out of range. Everything else is exact reals: the longitude normalisation, the interpolation in the ray test, the shoelace products and the orientation signs carry no rounding. The constants `DBL_EPSILON`, `M_PI` and `DBL_MAX` have their exact double values.
- The three `segmentIntersects` cases against the San Francisco loop (src/apps/testapps/testPolygon.c:158-178) have no fixture lemma. Their answers follow from `SegmentMeetsLoop` but were not worked out for those coordinates.
- `bboxContains`, `bboxIsTransmeridian`, `_v2dOrient` and `geoAlmostEqualThreshold` are defined in files that are not part of this model. They are modelled by their documented meaning: closed box containment with wrap-around for a transmeridian box, east < west, the exact sign of the cross product, and both coordinate differences strictly below the threshold.
- The `TYPE` token pasting and the iteration macros: each algorithm is written once, over a vertex sequence with the wrap-around edge convention.
- Polygon.HoleVertexInsideLoop, Polygon.EdgeClearOfPolygon, Polygon.EdgesIntersect: these are inner loops of the C functions, written as separate methods. The proofs stay small that way, and the order of tests and early returns is the source's.
- PolygonAlgos.SegmentIntersects: its contract is the single equation with `SegmentMeetsLoop`. The three false cases are stated apart, in `SegmentMeetsLoopRejects`.
- Geometric meaning for self-intersecting loops, pole-enclosing loops and edges wider than π: the model computes what the code computes, and no lemma claims more.

## Findings

| source | as written | input that shows it | evidently intended | confidence | as-written member | corrected member |
|---|---|---|---|---|---|---|
| src/h3lib/lib/polygon.c:154, 181 | The early return for a vertex in hole `j` is guarded by `j > 0 && holeIndex != j`, which tests the hole index. The edge phase pairs `holes[holeIndex]` with `bboxes[holeIndex]`. | The two-hole polygon of testPolygon.c:348-361, with the loop (0.15, 0.65), (0.15, 0.85), (0.35, 0.85), (0.35, 0.65) lying wholly in the second hole. Its first vertex is in hole 1 and nothing is tracked yet, so the code answers true. | The comment beside the guard says the previous point was outside or in another hole, which needs the vertex index: `i > 0 && holeIndex != j`. The hole's box sits at slot `holeIndex + 1`. The loop then tracks hole 1, none of its edges meets that hole, and the answer is false, as for the same loop in the first hole (testPolygon.c:375-376). | not executed | Polygon.GeoLoopIntersectsPolygon, Polygon.AsWrittenReportsLaterHoles, PolygonFixtures.SecondHoleCounterexample | Polygon.GeoLoopIntersectsPolygonFixed, Polygon.SingleHoleEdgesDecide |
