/**
 * Polygons with holes, built on the loop algorithms: the per-loop bounding
 * boxes, point-in-polygon, loop-inside-polygon and loop-intersects-polygon.
 *
 * A polygon's boxes are passed as a sequence `bboxes` laid out as
 * bboxesFromGeoPolygon writes them: the outer loop's box at index 0 and the
 * box of hole i at index i + 1.
 */
module Polygon {
  import opened Geo
  import opened PolygonAlgos

  /** An outer loop and its holes. */
  datatype GeoPolygon = GeoPolygon(geoloop: seq<LatLng>, holes: seq<seq<LatLng>>)

  /** bboxes holds a box for the outer loop and one for every hole. */
  predicate BoxesFor(polygon: GeoPolygon, bboxes: seq<BBox>) {
    |bboxes| > |polygon.holes|
  }

  // ---------------------------------------------------------------------
  // bboxesFromGeoPolygon
  // ---------------------------------------------------------------------

  /** The boxes bboxesFromGeoPolygon writes: the outer loop's first, then one per hole. */
  function BBoxesOf(polygon: GeoPolygon): (bs: seq<BBox>)
    ensures |bs| == |polygon.holes| + 1 && BoxesFor(polygon, bs)
    ensures bs[0] == BBoxOf(polygon.geoloop)
    ensures forall i :: 0 <= i < |polygon.holes| ==> bs[i + 1] == BBoxOf(polygon.holes[i])
  {
    [BBoxOf(polygon.geoloop)] + seq(|polygon.holes|, i requires 0 <= i < |polygon.holes| => BBoxOf(polygon.holes[i]))
  }

  /** Fills the first |holes| + 1 slots of the caller's array; the rest is left alone. */
  method BBoxesFromGeoPolygon(polygon: GeoPolygon, bboxes: array<BBox>)
    requires bboxes.Length > |polygon.holes|
    modifies bboxes
    ensures bboxes[..|polygon.holes| + 1] == BBoxesOf(polygon)
    ensures bboxes[|polygon.holes| + 1..] == old(bboxes[|polygon.holes| + 1..])
  {
    bboxes[0] := BBoxFrom(polygon.geoloop);
    var i := 0;
    while i < |polygon.holes|
      invariant 0 <= i <= |polygon.holes|
      invariant bboxes[0] == BBoxOf(polygon.geoloop)
      invariant forall k :: 0 <= k < i ==> bboxes[k + 1] == BBoxOf(polygon.holes[k])
      invariant bboxes[|polygon.holes| + 1..] == old(bboxes[|polygon.holes| + 1..])
    {
      bboxes[i + 1] := BBoxFrom(polygon.holes[i]);
      i := i + 1;
    }
  }

  // ---------------------------------------------------------------------
  // pointInsidePolygon
  // ---------------------------------------------------------------------

  /** Inside the outer loop and inside none of the holes, each tested against its own box. */
  predicate InsidePolygon(polygon: GeoPolygon, bboxes: seq<BBox>, coord: LatLng)
    requires BoxesFor(polygon, bboxes)
  {
    LoopContains(polygon.geoloop, bboxes[0], coord) &&
    forall i :: 0 <= i < |polygon.holes| ==> !LoopContains(polygon.holes[i], bboxes[i + 1], coord)
  }

  method PointInsidePolygon(polygon: GeoPolygon, bboxes: seq<BBox>, coord: LatLng) returns (contains: bool)
    requires BoxesFor(polygon, bboxes)
    ensures contains == InsidePolygon(polygon, bboxes, coord)
    ensures contains ==> BBoxContains(bboxes[0], coord)
  {
    contains := PointInside(polygon.geoloop, bboxes[0], coord);
    if contains && |polygon.holes| > 0 {
      var i := 0;
      while i < |polygon.holes|
        invariant 0 <= i <= |polygon.holes|
        invariant forall k :: 0 <= k < i ==> !LoopContains(polygon.holes[k], bboxes[k + 1], coord)
      {
        var inHole := PointInside(polygon.holes[i], bboxes[i + 1], coord);
        if inHole {
          return false;
        }
        i := i + 1;
      }
    }
  }

  /** The index of the first hole at or after j that contains coord, or -1 when there is none. */
  function FirstHoleFrom(polygon: GeoPolygon, bboxes: seq<BBox>, coord: LatLng, j: nat): (h: int)
    requires BoxesFor(polygon, bboxes) && j <= |polygon.holes|
    ensures h == -1 || (j <= h < |polygon.holes| && LoopContains(polygon.holes[h], bboxes[h + 1], coord))
    ensures forall k :: j <= k < |polygon.holes| && (h == -1 || k < h) ==>
      !LoopContains(polygon.holes[k], bboxes[k + 1], coord)
    decreases |polygon.holes| - j
  {
    if j == |polygon.holes| then -1
    else if LoopContains(polygon.holes[j], bboxes[j + 1], coord) then j
    else FirstHoleFrom(polygon, bboxes, coord, j + 1)
  }

  /** The first hole containing coord, or -1. */
  function FirstHole(polygon: GeoPolygon, bboxes: seq<BBox>, coord: LatLng): int
    requires BoxesFor(polygon, bboxes)
  {
    FirstHoleFrom(polygon, bboxes, coord, 0)
  }

  /** A point is inside the polygon exactly when it is inside the outer loop and no hole claims it. */
  lemma InsidePolygonIffNoHole(polygon: GeoPolygon, bboxes: seq<BBox>, coord: LatLng)
    requires BoxesFor(polygon, bboxes)
    ensures InsidePolygon(polygon, bboxes, coord) <==>
      LoopContains(polygon.geoloop, bboxes[0], coord) && FirstHole(polygon, bboxes, coord) == -1
  {
    var h := FirstHole(polygon, bboxes, coord);
    if h != -1 {
      assert LoopContains(polygon.holes[h], bboxes[h + 1], coord);
    }
  }

  // ---------------------------------------------------------------------
  // geoLoopInsidePolygon
  // ---------------------------------------------------------------------

  /** Segment (p1, p2) meets neither the outer loop nor any hole. */
  predicate EdgeClear(polygon: GeoPolygon, bboxes: seq<BBox>, p1: LatLng, p2: LatLng)
    requires BoxesFor(polygon, bboxes)
  {
    !SegmentMeetsLoop(polygon.geoloop, bboxes[0], p1, p2) &&
    forall h :: 0 <= h < |polygon.holes| ==> !SegmentMeetsLoop(polygon.holes[h], bboxes[h + 1], p1, p2)
  }

  /** Some vertex of some hole is inside the loop, tested against the loop's own box. */
  predicate HoleVertexInside(polygon: GeoPolygon, loop: seq<LatLng>) {
    exists h, j :: 0 <= h < |polygon.holes| && 0 <= j < |polygon.holes[h]| &&
      LoopContains(loop, BBoxOf(loop), polygon.holes[h][j])
  }

  /**
   * What geoLoopInsidePolygon answers: every vertex is inside the polygon,
   * the loop is not empty, and a loop of two or more vertices swallows no
   * hole vertex (tested for three or more) and has no edge meeting the
   * outer loop or a hole.
   */
  predicate LoopInsidePolygon(polygon: GeoPolygon, bboxes: seq<BBox>, loop: seq<LatLng>)
    requires BoxesFor(polygon, bboxes)
  {
    (forall i :: 0 <= i < |loop| ==> InsidePolygon(polygon, bboxes, loop[i])) &&
    |loop| != 0 &&
    (|loop| >= 2 ==>
      (|loop| > 2 ==> !HoleVertexInside(polygon, loop)) &&
      forall i :: 0 <= i < |loop| ==> EdgeClearAt(polygon, bboxes, loop, i))
  }

  /** Edge i of loop, from vertex i to the next, is clear of the polygon's loops. */
  predicate EdgeClearAt(polygon: GeoPolygon, bboxes: seq<BBox>, loop: seq<LatLng>, i: nat)
    requires BoxesFor(polygon, bboxes) && i < |loop|
  {
    EdgeClear(polygon, bboxes, loop[i], Next(loop, i))
  }

  method GeoLoopInsidePolygon(polygon: GeoPolygon, bboxes: seq<BBox>, loop: seq<LatLng>) returns (inside: bool)
    requires BoxesFor(polygon, bboxes)
    ensures inside == LoopInsidePolygon(polygon, bboxes, loop)
  {
    var i := 0;
    while i < |loop|
      invariant 0 <= i <= |loop|
      invariant forall k :: 0 <= k < i ==> InsidePolygon(polygon, bboxes, loop[k])
    {
      var ok := PointInsidePolygon(polygon, bboxes, loop[i]);
      if !ok {
        return false;
      }
      i := i + 1;
    }
    if |loop| < 2 {
      return |loop| != 0;
    }

    if |loop| > 2 && |polygon.holes| > 0 {
      var loopBbox := BBoxFrom(loop);
      var swallowed := HoleVertexInsideLoop(polygon, loop, loopBbox);
      if swallowed {
        return false;
      }
    }

    var e := 0;
    while e < |loop|
      invariant 0 <= e <= |loop|
      invariant forall k :: 0 <= k < e ==> EdgeClearAt(polygon, bboxes, loop, k)
    {
      var clear := EdgeClearOfPolygon(polygon, bboxes, loop[e], Next(loop, e));
      if !clear {
        assert !EdgeClearAt(polygon, bboxes, loop, e);
        return false;
      }
      e := e + 1;
    }
    return true;
  }

  /** The hole-vertex scan of geoLoopInsidePolygon: is some vertex of some hole inside loop? */
  method HoleVertexInsideLoop(polygon: GeoPolygon, loop: seq<LatLng>, loopBbox: BBox) returns (swallowed: bool)
    requires loopBbox == BBoxOf(loop)
    ensures swallowed == HoleVertexInside(polygon, loop)
  {
    var h := 0;
    while h < |polygon.holes|
      invariant 0 <= h <= |polygon.holes|
      invariant forall hh, j :: 0 <= hh < h && 0 <= j < |polygon.holes[hh]| ==>
        !LoopContains(loop, loopBbox, polygon.holes[hh][j])
    {
      var hole := polygon.holes[h];
      var j := 0;
      while j < |hole|
        invariant 0 <= j <= |hole|
        invariant forall jj :: 0 <= jj < j ==> !LoopContains(loop, loopBbox, hole[jj])
      {
        swallowed := PointInside(loop, loopBbox, hole[j]);
        if swallowed {
          return;
        }
        j := j + 1;
      }
      h := h + 1;
    }
    return false;
  }

  /** The per-edge test of geoLoopInsidePolygon: the segment meets neither the outer loop nor a hole. */
  method EdgeClearOfPolygon(polygon: GeoPolygon, bboxes: seq<BBox>, p1: LatLng, p2: LatLng) returns (clear: bool)
    requires BoxesFor(polygon, bboxes)
    ensures clear == EdgeClear(polygon, bboxes, p1, p2)
  {
    var hit := SegmentIntersects(polygon.geoloop, bboxes[0], p1, p2);
    if hit {
      return false;
    }
    var j := 0;
    while j < |polygon.holes|
      invariant 0 <= j <= |polygon.holes|
      invariant forall h :: 0 <= h < j ==> !SegmentMeetsLoop(polygon.holes[h], bboxes[h + 1], p1, p2)
    {
      hit := SegmentIntersects(polygon.holes[j], bboxes[j + 1], p1, p2);
      if hit {
        return false;
      }
      j := j + 1;
    }
    return true;
  }

  /** The empty loop is never inside. */
  lemma EmptyLoopNotInside(polygon: GeoPolygon, bboxes: seq<BBox>)
    requires BoxesFor(polygon, bboxes)
    ensures !LoopInsidePolygon(polygon, bboxes, [])
  {
  }

  /** A one-vertex loop is inside exactly when its vertex is. */
  lemma SingleVertexInside(polygon: GeoPolygon, bboxes: seq<BBox>, c: LatLng)
    requires BoxesFor(polygon, bboxes)
    ensures LoopInsidePolygon(polygon, bboxes, [c]) <==> InsidePolygon(polygon, bboxes, c)
  {
    assert [c][0] == c;
  }

  // ---------------------------------------------------------------------
  // geoLoopIntersectsPolygon
  // ---------------------------------------------------------------------

  /**
   * The guard that decides whether a vertex found in hole j may continue the
   * scan. The code tests the hole index (j > 0); the comment beside it, that
   * the previous point lay outside the outer loop or in another hole, needs
   * a previous point, i.e. the vertex index (i > 0). Intended also reads the
   * tracked hole's box at its own slot, holeIndex + 1.
   */
  datatype Variant = AsWritten | Intended

  /** The first phase's state: a vertex already decided the answer, or the hole the vertices sit in so far (-1: none). */
  datatype Phase = Found | Track(holeIndex: int)

  /** What the first phase does with vertex i, coordinate coord, given the tracked hole. */
  function VertexStep(polygon: GeoPolygon, bboxes: seq<BBox>, v: Variant, holeIndex: int, i: nat, coord: LatLng): Phase
    requires BoxesFor(polygon, bboxes)
  {
    if !LoopContains(polygon.geoloop, bboxes[0], coord) then Track(holeIndex)
    else
      var j := FirstHole(polygon, bboxes, coord);
      if j == -1 then Found
      else if (match v case AsWritten => j > 0 case Intended => i > 0) && holeIndex != j then Found
      else Track(j)
  }

  /** The first phase after the first k vertices. */
  function HoleScan(polygon: GeoPolygon, bboxes: seq<BBox>, v: Variant, loop: seq<LatLng>, k: nat): (p: Phase)
    requires BoxesFor(polygon, bboxes) && k <= |loop|
    ensures p.Track? ==> -1 <= p.holeIndex < |polygon.holes|
    ensures p.Track? && v == AsWritten ==> p.holeIndex <= 0
  {
    if k == 0 then Track(-1)
    else
      match HoleScan(polygon, bboxes, v, loop, k - 1)
      case Found => Found
      case Track(h) => VertexStep(polygon, bboxes, v, h, k - 1, loop[k - 1])
  }

  /** The loop whose edges the second phase tests: the outer loop, or the tracked hole. */
  function EdgeRing(polygon: GeoPolygon, holeIndex: int): seq<LatLng>
    requires -1 <= holeIndex < |polygon.holes|
  {
    if holeIndex == -1 then polygon.geoloop else polygon.holes[holeIndex]
  }

  /** The box handed to segmentIntersects with that loop. */
  function EdgeBox(polygon: GeoPolygon, bboxes: seq<BBox>, v: Variant, holeIndex: int): BBox
    requires BoxesFor(polygon, bboxes) && -1 <= holeIndex < |polygon.holes|
  {
    if holeIndex == -1 then bboxes[0]
    else match v
      case AsWritten => bboxes[holeIndex]
      case Intended => bboxes[holeIndex + 1]
  }

  /** Some edge of loop meets ring, tested against box. */
  predicate EdgesMeet(ring: seq<LatLng>, box: BBox, loop: seq<LatLng>) {
    exists i :: 0 <= i < |loop| && SegmentMeetsLoop(ring, box, loop[i], Next(loop, i))
  }

  /** The answer: a vertex decided it, or, for two or more vertices, some edge meets the tracked loop. */
  predicate IntersectsVerdict(polygon: GeoPolygon, bboxes: seq<BBox>, v: Variant, loop: seq<LatLng>)
    requires BoxesFor(polygon, bboxes)
  {
    match HoleScan(polygon, bboxes, v, loop, |loop|)
    case Found => true
    case Track(h) => |loop| > 1 && EdgesMeet(EdgeRing(polygon, h), EdgeBox(polygon, bboxes, v, h), loop)
  }

  /** Once a vertex decides the answer, later vertices do not change it. */
  lemma {:induction false} FoundPersists(polygon: GeoPolygon, bboxes: seq<BBox>, v: Variant, loop: seq<LatLng>, k: nat, m: nat)
    requires BoxesFor(polygon, bboxes) && k <= m <= |loop|
    requires HoleScan(polygon, bboxes, v, loop, k) == Found
    ensures HoleScan(polygon, bboxes, v, loop, m) == Found
    decreases m
  {
    if m > k {
      FoundPersists(polygon, bboxes, v, loop, k, m - 1);
    }
  }

  /** A vertex inside the outer loop and in no hole makes the whole loop intersect. */
  lemma UncoveredVertexDecides(polygon: GeoPolygon, bboxes: seq<BBox>, v: Variant, loop: seq<LatLng>, i: nat, h: int)
    requires BoxesFor(polygon, bboxes) && i < |loop|
    requires HoleScan(polygon, bboxes, v, loop, i) == Track(h)
    requires LoopContains(polygon.geoloop, bboxes[0], loop[i])
    requires FirstHole(polygon, bboxes, loop[i]) == -1
    ensures IntersectsVerdict(polygon, bboxes, v, loop)
  {
    FoundPersists(polygon, bboxes, v, loop, i + 1, |loop|);
  }

  /** A vertex in hole j that the guard stops makes the whole loop intersect. */
  lemma HoleVertexDecides(polygon: GeoPolygon, bboxes: seq<BBox>, v: Variant, loop: seq<LatLng>, i: nat, h: int, j: nat)
    requires BoxesFor(polygon, bboxes) && i < |loop| && j < |polygon.holes|
    requires HoleScan(polygon, bboxes, v, loop, i) == Track(h)
    requires LoopContains(polygon.geoloop, bboxes[0], loop[i])
    requires FirstHole(polygon, bboxes, loop[i]) == j
    requires (match v case AsWritten => j > 0 case Intended => i > 0) && h != j
    ensures IntersectsVerdict(polygon, bboxes, v, loop)
  {
    FoundPersists(polygon, bboxes, v, loop, i + 1, |loop|);
  }

  /** A vertex outside the outer loop leaves the tracked hole as it was. */
  lemma OutsideVertexStep(polygon: GeoPolygon, bboxes: seq<BBox>, v: Variant, loop: seq<LatLng>, i: nat, h: int)
    requires BoxesFor(polygon, bboxes) && i < |loop|
    requires HoleScan(polygon, bboxes, v, loop, i) == Track(h)
    requires !LoopContains(polygon.geoloop, bboxes[0], loop[i])
    ensures HoleScan(polygon, bboxes, v, loop, i + 1) == Track(h)
  {
  }

  /** A vertex in hole j that the guard lets through makes j the tracked hole. */
  lemma HoleVertexStep(polygon: GeoPolygon, bboxes: seq<BBox>, v: Variant, loop: seq<LatLng>, i: nat, h: int, j: nat)
    requires BoxesFor(polygon, bboxes) && i < |loop| && j < |polygon.holes|
    requires HoleScan(polygon, bboxes, v, loop, i) == Track(h)
    requires LoopContains(polygon.geoloop, bboxes[0], loop[i])
    requires FirstHole(polygon, bboxes, loop[i]) == j
    requires !((match v case AsWritten => j > 0 case Intended => i > 0) && h != j)
    ensures HoleScan(polygon, bboxes, v, loop, i + 1) == Track(j)
  {
  }

  /** When no vertex decides, the edges of the loop against the tracked loop and box decide. */
  lemma TrackedVerdict(polygon: GeoPolygon, bboxes: seq<BBox>, v: Variant, loop: seq<LatLng>, h: int)
    requires BoxesFor(polygon, bboxes)
    requires HoleScan(polygon, bboxes, v, loop, |loop|) == Track(h)
    ensures -1 <= h < |polygon.holes|
    ensures IntersectsVerdict(polygon, bboxes, v, loop) ==
      (|loop| > 1 && EdgesMeet(EdgeRing(polygon, h), EdgeBox(polygon, bboxes, v, h), loop))
  {
  }

  /** The edge loop of geoLoopIntersectsPolygon: does some edge of loop, closing edge included, meet ring? */
  method EdgesIntersect(ring: seq<LatLng>, bbox: BBox, loop: seq<LatLng>) returns (hit: bool)
    ensures hit == EdgesMeet(ring, bbox, loop)
  {
    var i := 0;
    while i < |loop|
      invariant 0 <= i <= |loop|
      invariant forall k :: 0 <= k < i ==> !SegmentMeetsLoop(ring, bbox, loop[k], Next(loop, k))
    {
      hit := SegmentIntersects(ring, bbox, loop[i], Next(loop, i));
      if hit {
        return;
      }
      i := i + 1;
    }
    return false;
  }

  /** geoLoopIntersectsPolygon as the code is written. */
  method GeoLoopIntersectsPolygon(polygon: GeoPolygon, bboxes: seq<BBox>, loop: seq<LatLng>) returns (intersects: bool)
    requires BoxesFor(polygon, bboxes)
    ensures intersects == IntersectsVerdict(polygon, bboxes, AsWritten, loop)
  {
    var holeIndex := -1;
    var i := 0;
    while i < |loop|
      invariant 0 <= i <= |loop|
      invariant HoleScan(polygon, bboxes, AsWritten, loop, i) == Track(holeIndex)
    {
      var coord := loop[i];
      var contains := PointInside(polygon.geoloop, bboxes[0], coord);
      if !contains {
        OutsideVertexStep(polygon, bboxes, AsWritten, loop, i, holeIndex);
      }
      if contains && |polygon.holes| > 0 {
        var j := 0;
        while j < |polygon.holes|
          invariant 0 <= j <= |polygon.holes|
          invariant FirstHole(polygon, bboxes, coord) == FirstHoleFrom(polygon, bboxes, coord, j)
        {
          var inHole := PointInside(polygon.holes[j], bboxes[j + 1], coord);
          if inHole {
            if j > 0 && holeIndex != j {
              HoleVertexDecides(polygon, bboxes, AsWritten, loop, i, holeIndex, j);
              return true;
            }
            HoleVertexStep(polygon, bboxes, AsWritten, loop, i, holeIndex, j);
            holeIndex := j;
            contains := false;
            break;
          }
          j := j + 1;
        }
      }
      if contains {
        UncoveredVertexDecides(polygon, bboxes, AsWritten, loop, i, holeIndex);
        return true;
      }
      i := i + 1;
    }
    TrackedVerdict(polygon, bboxes, AsWritten, loop, holeIndex);

    if |loop| > 1 {
      var ring, bbox;
      if holeIndex == -1 {
        ring, bbox := polygon.geoloop, bboxes[0];
      } else {
        ring, bbox := polygon.holes[holeIndex], bboxes[holeIndex];
      }
      intersects := EdgesIntersect(ring, bbox, loop);
      return;
    }
    return false;
  }

  /** geoLoopIntersectsPolygon with the vertex-index guard and the hole's own box. */
  method GeoLoopIntersectsPolygonFixed(polygon: GeoPolygon, bboxes: seq<BBox>, loop: seq<LatLng>) returns (intersects: bool)
    requires BoxesFor(polygon, bboxes)
    ensures intersects == IntersectsVerdict(polygon, bboxes, Intended, loop)
  {
    var holeIndex := -1;
    var i := 0;
    while i < |loop|
      invariant 0 <= i <= |loop|
      invariant HoleScan(polygon, bboxes, Intended, loop, i) == Track(holeIndex)
    {
      var coord := loop[i];
      var contains := PointInside(polygon.geoloop, bboxes[0], coord);
      if !contains {
        OutsideVertexStep(polygon, bboxes, Intended, loop, i, holeIndex);
      }
      if contains && |polygon.holes| > 0 {
        var j := 0;
        while j < |polygon.holes|
          invariant 0 <= j <= |polygon.holes|
          invariant FirstHole(polygon, bboxes, coord) == FirstHoleFrom(polygon, bboxes, coord, j)
        {
          var inHole := PointInside(polygon.holes[j], bboxes[j + 1], coord);
          if inHole {
            if i > 0 && holeIndex != j {
              HoleVertexDecides(polygon, bboxes, Intended, loop, i, holeIndex, j);
              return true;
            }
            HoleVertexStep(polygon, bboxes, Intended, loop, i, holeIndex, j);
            holeIndex := j;
            contains := false;
            break;
          }
          j := j + 1;
        }
      }
      if contains {
        UncoveredVertexDecides(polygon, bboxes, Intended, loop, i, holeIndex);
        return true;
      }
      i := i + 1;
    }
    TrackedVerdict(polygon, bboxes, Intended, loop, holeIndex);

    if |loop| > 1 {
      var ring, bbox;
      if holeIndex == -1 {
        ring, bbox := polygon.geoloop, bboxes[0];
      } else {
        ring, bbox := polygon.holes[holeIndex], bboxes[holeIndex + 1];
      }
      intersects := EdgesIntersect(ring, bbox, loop);
      return;
    }
    return false;
  }

  // ---------------------------------------------------------------------
  // What geoLoopIntersectsPolygon promises
  // ---------------------------------------------------------------------

  /** A vertex inside the polygon (in the outer loop, in no hole) makes the loop intersect, in both variants. */
  lemma VertexInsideIntersects(polygon: GeoPolygon, bboxes: seq<BBox>, v: Variant, loop: seq<LatLng>, i: nat)
    requires BoxesFor(polygon, bboxes) && i < |loop|
    requires InsidePolygon(polygon, bboxes, loop[i])
    ensures IntersectsVerdict(polygon, bboxes, v, loop)
  {
    InsidePolygonIffNoHole(polygon, bboxes, loop[i]);
    match HoleScan(polygon, bboxes, v, loop, i)
    case Found =>
      FoundPersists(polygon, bboxes, v, loop, i, |loop|);
    case Track(h) =>
      UncoveredVertexDecides(polygon, bboxes, v, loop, i, h);
  }

  /** A loop inside the polygon intersects it. */
  lemma InsideImpliesIntersects(polygon: GeoPolygon, bboxes: seq<BBox>, v: Variant, loop: seq<LatLng>)
    requires BoxesFor(polygon, bboxes)
    requires LoopInsidePolygon(polygon, bboxes, loop)
    ensures IntersectsVerdict(polygon, bboxes, v, loop)
  {
    VertexInsideIntersects(polygon, bboxes, v, loop, 0);
  }

  /** While every vertex so far lies outside the outer loop, no hole is tracked. */
  lemma {:induction false} OutsidePrefix(polygon: GeoPolygon, bboxes: seq<BBox>, v: Variant, loop: seq<LatLng>, k: nat)
    requires BoxesFor(polygon, bboxes) && k <= |loop|
    requires forall i :: 0 <= i < k ==> !LoopContains(polygon.geoloop, bboxes[0], loop[i])
    ensures HoleScan(polygon, bboxes, v, loop, k) == Track(-1)
  {
    if k > 0 {
      OutsidePrefix(polygon, bboxes, v, loop, k - 1);
      OutsideVertexStep(polygon, bboxes, v, loop, k - 1, -1);
    }
  }

  /** A loop with every vertex outside the outer loop intersects exactly when one of its edges meets the outer loop. */
  lemma OutsideLoopEdgesDecide(polygon: GeoPolygon, bboxes: seq<BBox>, v: Variant, loop: seq<LatLng>)
    requires BoxesFor(polygon, bboxes)
    requires forall i :: 0 <= i < |loop| ==> !LoopContains(polygon.geoloop, bboxes[0], loop[i])
    ensures IntersectsVerdict(polygon, bboxes, v, loop) ==
      (|loop| > 1 && EdgesMeet(polygon.geoloop, bboxes[0], loop))
  {
    OutsidePrefix(polygon, bboxes, v, loop, |loop|);
  }

  /**
   * As written, only hole 0 can ever be tracked: a vertex inside the outer
   * loop whose first containing hole is any later hole answers true at once,
   * whatever the other vertices are.
   */
  lemma AsWrittenReportsLaterHoles(polygon: GeoPolygon, bboxes: seq<BBox>, loop: seq<LatLng>, i: nat)
    requires BoxesFor(polygon, bboxes) && i < |loop|
    requires LoopContains(polygon.geoloop, bboxes[0], loop[i])
    requires FirstHole(polygon, bboxes, loop[i]) >= 1
    ensures IntersectsVerdict(polygon, bboxes, AsWritten, loop)
  {
    match HoleScan(polygon, bboxes, AsWritten, loop, i)
    case Found =>
      FoundPersists(polygon, bboxes, AsWritten, loop, i, |loop|);
    case Track(h) =>
      HoleVertexDecides(polygon, bboxes, AsWritten, loop, i, h, FirstHole(polygon, bboxes, loop[i]));
  }

  /** Every vertex lies inside the outer loop with k as its first containing hole. */
  predicate AllInHole(polygon: GeoPolygon, bboxes: seq<BBox>, loop: seq<LatLng>, k: int)
    requires BoxesFor(polygon, bboxes)
  {
    forall i :: 0 <= i < |loop| ==>
      LoopContains(polygon.geoloop, bboxes[0], loop[i]) && FirstHole(polygon, bboxes, loop[i]) == k
  }

  /**
   * With every vertex in hole k, the scan tracks hole k from the first vertex
   * on: for every hole with the intended guard, only for hole 0 as written.
   */
  lemma {:induction false} TracksSingleHole(polygon: GeoPolygon, bboxes: seq<BBox>, v: Variant, loop: seq<LatLng>, k: nat, m: nat)
    requires BoxesFor(polygon, bboxes) && k < |polygon.holes| && 0 < m <= |loop|
    requires v == Intended || k == 0
    requires AllInHole(polygon, bboxes, loop, k)
    ensures HoleScan(polygon, bboxes, v, loop, m) == Track(k)
  {
    if m == 1 {
      HoleVertexStep(polygon, bboxes, v, loop, 0, -1, k);
    } else {
      TracksSingleHole(polygon, bboxes, v, loop, k, m - 1);
      HoleVertexStep(polygon, bboxes, v, loop, m - 1, k, k);
    }
  }

  /**
   * A loop lying wholly in hole k intersects exactly when it has two or more
   * vertices and one of its edges meets that hole: with the intended guard
   * for every hole, tested against the hole's own box; as written only for
   * hole 0, and then against the outer loop's box.
   */
  lemma SingleHoleEdgesDecide(polygon: GeoPolygon, bboxes: seq<BBox>, v: Variant, loop: seq<LatLng>, k: nat)
    requires BoxesFor(polygon, bboxes) && k < |polygon.holes| && |loop| > 0
    requires v == Intended || k == 0
    requires AllInHole(polygon, bboxes, loop, k)
    ensures IntersectsVerdict(polygon, bboxes, v, loop) ==
      (|loop| > 1 && EdgesMeet(polygon.holes[k], if v == Intended then bboxes[k + 1] else bboxes[0], loop))
  {
    TracksSingleHole(polygon, bboxes, v, loop, k, |loop|);
    TrackedVerdict(polygon, bboxes, v, loop, k);
  }

  /** Intended: once a vertex is in hole h, later states track h or have already decided. */
  lemma {:induction false} IntendedHoleSticks(polygon: GeoPolygon, bboxes: seq<BBox>, loop: seq<LatLng>, a: nat, h: nat, m: nat)
    requires BoxesFor(polygon, bboxes) && a < m <= |loop|
    requires HoleScan(polygon, bboxes, Intended, loop, a + 1) in {Found, Track(h)}
    ensures HoleScan(polygon, bboxes, Intended, loop, m) in {Found, Track(h)}
  {
    if m > a + 1 {
      IntendedHoleSticks(polygon, bboxes, loop, a, h, m - 1);
    }
  }

  /** Intended: two vertices, each inside the outer loop, in different holes make the loop intersect. */
  lemma IntendedTwoHoles(polygon: GeoPolygon, bboxes: seq<BBox>, loop: seq<LatLng>, a: nat, b: nat)
    requires BoxesFor(polygon, bboxes) && a < b < |loop|
    requires LoopContains(polygon.geoloop, bboxes[0], loop[a]) && LoopContains(polygon.geoloop, bboxes[0], loop[b])
    requires FirstHole(polygon, bboxes, loop[a]) != -1 && FirstHole(polygon, bboxes, loop[b]) != -1
    requires FirstHole(polygon, bboxes, loop[a]) != FirstHole(polygon, bboxes, loop[b])
    ensures IntersectsVerdict(polygon, bboxes, Intended, loop)
  {
    var ha := FirstHole(polygon, bboxes, loop[a]);
    match HoleScan(polygon, bboxes, Intended, loop, a)
    case Found =>
      FoundPersists(polygon, bboxes, Intended, loop, a, |loop|);
    case Track(h) =>
      if HoleScan(polygon, bboxes, Intended, loop, a + 1) == Found {
        FoundPersists(polygon, bboxes, Intended, loop, a + 1, |loop|);
      } else {
        IntendedHoleSticks(polygon, bboxes, loop, a, ha, b);
        match HoleScan(polygon, bboxes, Intended, loop, b)
        case Found =>
          FoundPersists(polygon, bboxes, Intended, loop, b, |loop|);
        case Track(hb) =>
          HoleVertexDecides(polygon, bboxes, Intended, loop, b, hb, FirstHole(polygon, bboxes, loop[b]));
      }
  }

  /** Intended: a vertex in a hole after vertices that all lie outside the outer loop makes the loop intersect. */
  lemma IntendedOutsideThenHole(polygon: GeoPolygon, bboxes: seq<BBox>, loop: seq<LatLng>, b: nat)
    requires BoxesFor(polygon, bboxes) && 0 < b < |loop|
    requires forall i :: 0 <= i < b ==> !LoopContains(polygon.geoloop, bboxes[0], loop[i])
    requires LoopContains(polygon.geoloop, bboxes[0], loop[b]) && FirstHole(polygon, bboxes, loop[b]) != -1
    ensures IntersectsVerdict(polygon, bboxes, Intended, loop)
  {
    OutsidePrefix(polygon, bboxes, Intended, loop, b);
    HoleVertexDecides(polygon, bboxes, Intended, loop, b, -1, FirstHole(polygon, bboxes, loop[b]));
  }
}
