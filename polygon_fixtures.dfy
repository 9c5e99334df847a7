/**
 * Axis-aligned rectangles, and the unit-square polygons that the library's
 * polygon tests use: without holes, with one hole in the middle and with
 * two holes. The general rectangle lemmas (box, containment of the interior,
 * segments that stay inside, axis-aligned segments that cross) make the
 * concrete cases short; SecondHoleCounterexample exhibits the input on which
 * geoLoopIntersectsPolygon as written and as intended disagree.
 */
module PolygonFixtures {
  import opened Geo
  import opened PolygonAlgos
  import opened Polygon
  import opened LoopFixtures

  /** The rectangle [s, n] x [w, e], listed (s, w), (s, e), (n, e), (n, w) as the tests list theirs. */
  function Rect(s: real, n: real, w: real, e: real): (r: seq<LatLng>)
    ensures |r| == 4
  {
    [LatLng(s, w), LatLng(s, e), LatLng(n, e), LatLng(n, w)]
  }

  /** bboxFrom of a rectangle narrower than half a turn is the rectangle itself. */
  lemma RectBox(s: real, n: real, w: real, e: real)
    requires -PI <= s < n <= PI && -PI <= w < e <= PI && e - w <= PI
    ensures BBoxOf(Rect(s, n, w, e)) == BBox(n, s, e, w)
  {
    var r := Rect(s, n, w, e);
    var lats, lngs := Lats(r), Lngs(r);
    assert lats == [s, s, n, n];
    assert lngs == [w, e, e, w];
    assert MaxFrom(lats, 1, -DBL_MAX) == s;
    assert MaxFrom(lats, 2, -DBL_MAX) == s;
    assert MaxFrom(lats, 3, -DBL_MAX) == n;
    assert MaxFrom(lats, 4, -DBL_MAX) == n;
    assert MinFrom(lats, 1, DBL_MAX) == s;
    assert MinFrom(lats, 2, DBL_MAX) == s;
    assert MinFrom(lats, 3, DBL_MAX) == s;
    assert MinFrom(lats, 4, DBL_MAX) == s;
    assert MaxFrom(lngs, 1, -DBL_MAX) == w;
    assert MaxFrom(lngs, 2, -DBL_MAX) == e;
    assert MaxFrom(lngs, 3, -DBL_MAX) == e;
    assert MaxFrom(lngs, 4, -DBL_MAX) == e;
    assert MinFrom(lngs, 1, DBL_MAX) == w;
    assert MinFrom(lngs, 2, DBL_MAX) == w;
    assert MinFrom(lngs, 3, DBL_MAX) == w;
    assert MinFrom(lngs, 4, DBL_MAX) == w;
    assert !HasWideEdge(r) by {
      forall i | 0 <= i < 4 ensures !WideEdge(r, i) {
      }
    }
  }

  /**
   * pointInside holds for every point strictly inside a rectangle: the ray
   * crosses the east side only.
   */
  lemma RectContainsInterior(s: real, n: real, w: real, e: real, p: LatLng)
    requires s < p.lat < n && w < p.lng < e
    ensures LoopContains(Rect(s, n, w, e), BBox(n, s, e, w), p)
  {
    var r := Rect(s, n, w, e);
    var s0 := RayState(p.lat, p.lng, false);
    var s1 := RayState(p.lat, p.lng, true);
    assert RayStep(s0, r[0], r[1], false) == s0;
    assert RayStep(s0, r[1], r[2], false) == s1;
    assert RayStep(s1, r[2], r[3], false) == s1;
    assert RayStep(s1, r[3], r[0], false) == s1;
    ScanOfFour(r, false, s0, s0, s1, s1, s1);
  }

  /**
   * A segment with both endpoints strictly inside a rectangle meets none of
   * its sides, whatever non-transmeridian box the rectangle is tested with:
   * every side is pruned.
   */
  lemma InteriorSegmentMissesRect(s: real, n: real, w: real, e: real, box: BBox, p0: LatLng, p1: LatLng)
    requires s < p0.lat < n && w < p0.lng < e && s < p1.lat < n && w < p1.lng < e
    requires e - w <= PI && !BBoxIsTransmeridian(box)
    ensures !SegmentMeetsLoop(Rect(s, n, w, e), box, p0, p1)
  {
    var r := Rect(s, n, w, e);
    var q := QueryOf(box, p0, p1);
    assert !q.tm;
    forall i | 0 <= i < 4
      ensures !EdgeReports(r, q, i)
    {
      assert Pruned(r, q, i);
      PrunedEdgeIsSilent(r, q, i);
    }
  }

  /** A rectangle strictly inside another has no edge meeting it. */
  lemma NestedRectMisses(s: real, n: real, w: real, e: real, box: BBox, s2: real, n2: real, w2: real, e2: real)
    requires s < s2 < n2 < n && w < w2 < e2 < e
    requires e - w <= PI && !BBoxIsTransmeridian(box)
    ensures !EdgesMeet(Rect(s, n, w, e), box, Rect(s2, n2, w2, e2))
  {
    var inner := Rect(s2, n2, w2, e2);
    var sw, se, ne, nw := LatLng(s2, w2), LatLng(s2, e2), LatLng(n2, e2), LatLng(n2, w2);
    InteriorSegmentMissesRect(s, n, w, e, box, sw, se);
    InteriorSegmentMissesRect(s, n, w, e, box, se, ne);
    InteriorSegmentMissesRect(s, n, w, e, box, ne, nw);
    InteriorSegmentMissesRect(s, n, w, e, box, nw, sw);
    assert inner == [sw, se, ne, nw] && Next(inner, 3) == sw;
  }

  /** The unit square with holes [0.1, 0.4] x [0.1, 0.4] and [0.1, 0.4] x [0.6, 0.9]. */
  const TwoHoles: GeoPolygon :=
    GeoPolygon(Rect(0.0, 1.0, 0.0, 1.0), [Rect(0.1, 0.4, 0.1, 0.4), Rect(0.1, 0.4, 0.6, 0.9)])

  lemma TwoHolesBoxes()
    ensures BBoxesOf(TwoHoles) == [BBox(1.0, 0.0, 1.0, 0.0), BBox(0.4, 0.1, 0.4, 0.1), BBox(0.4, 0.1, 0.9, 0.6)]
  {
    RectBox(0.0, 1.0, 0.0, 1.0);
    RectBox(0.1, 0.4, 0.1, 0.4);
    RectBox(0.1, 0.4, 0.6, 0.9);
  }

  /** A point of the first hole's interior is in the outer loop and has hole 0 as its first hole. */
  lemma InFirstHole(c: LatLng)
    requires 0.1 < c.lat < 0.4 && 0.1 < c.lng < 0.4
    ensures LoopContains(TwoHoles.geoloop, BBoxesOf(TwoHoles)[0], c)
    ensures FirstHole(TwoHoles, BBoxesOf(TwoHoles), c) == 0
  {
    TwoHolesBoxes();
    RectContainsInterior(0.0, 1.0, 0.0, 1.0, c);
    RectContainsInterior(0.1, 0.4, 0.1, 0.4, c);
  }

  /** A point of the second hole's interior is in the outer loop and has hole 1 as its first hole. */
  lemma InSecondHole(c: LatLng)
    requires 0.1 < c.lat < 0.4 && 0.6 < c.lng < 0.9
    ensures LoopContains(TwoHoles.geoloop, BBoxesOf(TwoHoles)[0], c)
    ensures FirstHole(TwoHoles, BBoxesOf(TwoHoles), c) == 1
  {
    var bs := BBoxesOf(TwoHoles);
    TwoHolesBoxes();
    RectContainsInterior(0.0, 1.0, 0.0, 1.0, c);
    RectContainsInterior(0.1, 0.4, 0.6, 0.9, c);
    assert !BBoxContains(bs[1], c);
    assert FirstHoleFrom(TwoHoles, bs, c, 1) == 1;
  }

  /** A loop around the first hole has its first vertex inside the polygon, so it intersects, in both variants. */
  lemma AroundHoleIntersects(v: Variant)
    ensures IntersectsVerdict(TwoHoles, BBoxesOf(TwoHoles), v, Rect(0.05, 0.45, 0.05, 0.45))
  {
    var bs := BBoxesOf(TwoHoles);
    var c := LatLng(0.05, 0.05);
    TwoHolesBoxes();
    RectContainsInterior(0.0, 1.0, 0.0, 1.0, c);
    assert !BBoxContains(bs[1], c) && !BBoxContains(bs[2], c);
    assert InsidePolygon(TwoHoles, bs, Rect(0.05, 0.45, 0.05, 0.45)[0]);
    VertexInsideIntersects(TwoHoles, bs, v, Rect(0.05, 0.45, 0.05, 0.45), 0);
  }

  /** Every vertex of a rectangle strictly inside the first hole lies in that hole. */
  lemma RectInFirstHole(s: real, n: real, w: real, e: real)
    requires 0.1 < s < n < 0.4 && 0.1 < w < e < 0.4
    ensures AllInHole(TwoHoles, BBoxesOf(TwoHoles), Rect(s, n, w, e), 0)
  {
    var r := Rect(s, n, w, e);
    InFirstHole(r[0]);
    InFirstHole(r[1]);
    InFirstHole(r[2]);
    InFirstHole(r[3]);
  }

  /** Every vertex of a rectangle strictly inside the second hole lies in that hole. */
  lemma RectInSecondHole(s: real, n: real, w: real, e: real)
    requires 0.1 < s < n < 0.4 && 0.6 < w < e < 0.9
    ensures AllInHole(TwoHoles, BBoxesOf(TwoHoles), Rect(s, n, w, e), 1)
  {
    var r := Rect(s, n, w, e);
    InSecondHole(r[0]);
    InSecondHole(r[1]);
    InSecondHole(r[2]);
    InSecondHole(r[3]);
  }

  /** A loop inside the first hole does not intersect, in both variants. */
  lemma InFirstHoleMisses(v: Variant)
    ensures !IntersectsVerdict(TwoHoles, BBoxesOf(TwoHoles), v, Rect(0.15, 0.35, 0.15, 0.35))
  {
    var bs := BBoxesOf(TwoHoles);
    TwoHolesBoxes();
    RectInFirstHole(0.15, 0.35, 0.15, 0.35);
    SingleHoleEdgesDecide(TwoHoles, bs, v, Rect(0.15, 0.35, 0.15, 0.35), 0);
    NestedRectMisses(0.1, 0.4, 0.1, 0.4, if v == Intended then bs[1] else bs[0], 0.15, 0.35, 0.15, 0.35);
  }

  /** A loop with vertices in both holes intersects, in both variants. */
  lemma InBothHolesIntersects(v: Variant)
    ensures IntersectsVerdict(TwoHoles, BBoxesOf(TwoHoles), v, [LatLng(0.15, 0.15), LatLng(0.15, 0.65), LatLng(0.35, 0.65), LatLng(0.35, 0.15)])
  {
    var bs := BBoxesOf(TwoHoles);
    var loop := [LatLng(0.15, 0.15), LatLng(0.15, 0.65), LatLng(0.35, 0.65), LatLng(0.35, 0.15)];
    InFirstHole(loop[0]);
    InSecondHole(loop[1]);
    match v
    case AsWritten => AsWrittenReportsLaterHoles(TwoHoles, bs, loop, 1);
    case Intended => IntendedTwoHoles(TwoHoles, bs, loop, 0, 1);
  }

  /**
   * The input on which the two variants disagree: a square lying wholly in
   * the second hole. As written, its first vertex is found in hole 1 and the
   * hole-index guard answers true at once; with the vertex-index guard the
   * square tracks hole 1 and, since none of its edges meets that hole, the
   * answer is false.
   */
  lemma SecondHoleCounterexample()
    ensures IntersectsVerdict(TwoHoles, BBoxesOf(TwoHoles), AsWritten, Rect(0.15, 0.35, 0.65, 0.85))
    ensures !IntersectsVerdict(TwoHoles, BBoxesOf(TwoHoles), Intended, Rect(0.15, 0.35, 0.65, 0.85))
  {
    var bs := BBoxesOf(TwoHoles);
    TwoHolesBoxes();
    RectInSecondHole(0.15, 0.35, 0.65, 0.85);
    AsWrittenReportsLaterHoles(TwoHoles, bs, Rect(0.15, 0.35, 0.65, 0.85), 0);
    SingleHoleEdgesDecide(TwoHoles, bs, Intended, Rect(0.15, 0.35, 0.65, 0.85), 1);
    NestedRectMisses(0.1, 0.4, 0.6, 0.9, bs[2], 0.15, 0.35, 0.65, 0.85);
  }

  /** The sample loop of the bounding-box tests as a polygon without holes: its one box. */
  lemma SampleLoopBoxes()
    ensures BBoxesOf(GeoPolygon([LatLng(0.8, 0.3), LatLng(0.7, 0.6), LatLng(1.1, 0.7), LatLng(1.0, 0.2)], []))
      == [BBox(1.1, 0.7, 0.7, 0.2)]
  {
    SampleLoopBox();
  }

  /** The sample loop of the bounding-box tests with one hole: one box per loop, in order. */
  lemma SampleHoleBoxes()
    ensures BBoxesOf(GeoPolygon(
        [LatLng(0.8, 0.3), LatLng(0.7, 0.6), LatLng(1.1, 0.7), LatLng(1.0, 0.2)],
        [[LatLng(0.9, 0.3), LatLng(0.9, 0.5), LatLng(1.0, 0.7), LatLng(0.9, 0.3)]]))
      == [BBox(1.1, 0.7, 0.7, 0.2), BBox(1.0, 0.9, 0.7, 0.3)]
  {
    var hole := [LatLng(0.9, 0.3), LatLng(0.9, 0.5), LatLng(1.0, 0.7), LatLng(0.9, 0.3)];
    SampleLoopBox();
    HoleLoopBox(hole);
  }

  /** bboxFrom of the hole of the bounding-box tests, whose last vertex repeats its first. */
  lemma HoleLoopBox(hole: seq<LatLng>)
    requires hole == [LatLng(0.9, 0.3), LatLng(0.9, 0.5), LatLng(1.0, 0.7), LatLng(0.9, 0.3)]
    ensures BBoxOf(hole) == BBox(1.0, 0.9, 0.7, 0.3)
  {
    assert !WideEdge(hole, 0) && !WideEdge(hole, 1) && !WideEdge(hole, 2) && !WideEdge(hole, 3);
    var lats, lngs := Lats(hole), Lngs(hole);
    assert lats == [0.9, 0.9, 1.0, 0.9];
    assert lngs == [0.3, 0.5, 0.7, 0.3];
    assert MaxFrom(lats, 1, -DBL_MAX) == 0.9;
    assert MaxFrom(lats, 2, -DBL_MAX) == 0.9;
    assert MaxFrom(lats, 3, -DBL_MAX) == 1.0;
    assert MaxFrom(lats, 4, -DBL_MAX) == 1.0;
    assert MinFrom(lats, 1, DBL_MAX) == 0.9;
    assert MinFrom(lats, 2, DBL_MAX) == 0.9;
    assert MinFrom(lats, 3, DBL_MAX) == 0.9;
    assert MinFrom(lats, 4, DBL_MAX) == 0.9;
    assert MaxFrom(lngs, 1, -DBL_MAX) == 0.3;
    assert MaxFrom(lngs, 2, -DBL_MAX) == 0.5;
    assert MaxFrom(lngs, 3, -DBL_MAX) == 0.7;
    assert MaxFrom(lngs, 4, -DBL_MAX) == 0.7;
    assert MinFrom(lngs, 1, DBL_MAX) == 0.3;
    assert MinFrom(lngs, 2, DBL_MAX) == 0.3;
    assert MinFrom(lngs, 3, DBL_MAX) == 0.3;
    assert MinFrom(lngs, 4, DBL_MAX) == 0.3;
  }

  // ---------------------------------------------------------------------
  // The loop tests against the unit square, with and without a hole
  // ---------------------------------------------------------------------

  /** A vertical segment crosses a horizontal one when each passes strictly between the other's ends. */
  lemma AxisSegmentsCross(x: real, y0: real, y1: real, xa: real, xb: real, y: real)
    requires y0 < y < y1 && xa < x < xb
    ensures ProperCrossing(Vec2d(x, y0), Vec2d(x, y1), Vec2d(xa, y), Vec2d(xb, y))
  {
    var v0, v1, va, vb := Vec2d(x, y0), Vec2d(x, y1), Vec2d(xa, y), Vec2d(xb, y);
    CrossOfVertical(x, y0, y1, va);
    CrossOfVertical(x, y0, y1, vb);
    CrossOfHorizontal(xa, xb, y, v0);
    CrossOfHorizontal(xa, xb, y, v1);
    PositiveProduct(y1 - y0, x - xa);
    PositiveProduct(y1 - y0, xb - x);
    PositiveProduct(xb - xa, y - y0);
    PositiveProduct(xb - xa, y1 - y);
    assert Orient(v0, v1, va) == 1 && Orient(v0, v1, vb) == -1;
    assert Orient(va, vb, v0) == -1 && Orient(va, vb, v1) == 1;
  }

  /** Orientation against a vertical segment is set by the horizontal offset. */
  lemma CrossOfVertical(x: real, y0: real, y1: real, p: Vec2d)
    ensures Cross(Vec2d(x, y0), Vec2d(x, y1), p) == (y1 - y0) * (x - p.x)
  {
    assert (x - x) * (p.y - y0) == 0.0;
  }

  /** Orientation against a horizontal segment is set by the vertical offset. */
  lemma CrossOfHorizontal(xa: real, xb: real, y: real, p: Vec2d)
    ensures Cross(Vec2d(xa, y), Vec2d(xb, y), p) == (xb - xa) * (p.y - y)
  {
    assert (y - y) * (p.x - xa) == 0.0;
  }

  lemma PositiveProduct(a: real, b: real)
    requires a > 0.0
    ensures b > 0.0 ==> a * b > 0.0
    ensures b < 0.0 ==> a * b < 0.0
  {
  }

  /** The unit square of the loop tests, without holes. */
  const Square: GeoPolygon := GeoPolygon(Rect(0.0, 1.0, 0.0, 1.0), [])

  lemma SquareBoxes()
    ensures BBoxesOf(Square) == [BBox(1.0, 0.0, 1.0, 0.0)]
  {
    RectBox(0.0, 1.0, 0.0, 1.0);
  }

  /** A square strictly inside is inside: all its vertices are, and all its edges are pruned. */
  lemma InnerSquareInside()
    ensures LoopInsidePolygon(Square, BBoxesOf(Square), Rect(0.25, 0.75, 0.25, 0.75))
  {
    var bs, r := BBoxesOf(Square), Rect(0.25, 0.75, 0.25, 0.75);
    SquareBoxes();
    forall i | 0 <= i < 4
      ensures InsidePolygon(Square, bs, r[i]) && EdgeClearAt(Square, bs, r, i)
    {
      RectContainsInterior(0.0, 1.0, 0.0, 1.0, r[i]);
      InteriorSegmentMissesRect(0.0, 1.0, 0.0, 1.0, bs[0], r[i], Next(r, i));
    }
  }

  /** A square beyond the north-east corner, and one overlapping that corner, are not inside: a vertex is outside the box. */
  lemma OverhangingSquaresNotInside()
    ensures !LoopInsidePolygon(Square, BBoxesOf(Square), Rect(1.1, 1.2, 1.1, 1.2))
    ensures !LoopInsidePolygon(Square, BBoxesOf(Square), Rect(0.5, 1.5, 0.5, 1.5))
  {
    var bs := BBoxesOf(Square);
    SquareBoxes();
    assert !InsidePolygon(Square, bs, Rect(1.1, 1.2, 1.1, 1.2)[0]);
    assert !InsidePolygon(Square, bs, Rect(0.5, 1.5, 0.5, 1.5)[1]);
  }

  /**
   * The non-convex test hands over boxes it never filled in, all zero: every
   * vertex of its loop then fails the box check, so the loop is not inside.
   */
  lemma ZeroBoxNotInside()
    ensures !LoopInsidePolygon(
      GeoPolygon([LatLng(0.0, 0.0), LatLng(0.0, 1.0), LatLng(0.5, 0.5), LatLng(1.0, 1.0), LatLng(1.0, 0.0)], []),
      [BBox(0.0, 0.0, 0.0, 0.0)], Rect(0.1, 0.9, 0.3, 0.7))
  {
    var polygon := GeoPolygon([LatLng(0.0, 0.0), LatLng(0.0, 1.0), LatLng(0.5, 0.5), LatLng(1.0, 1.0), LatLng(1.0, 0.0)], []);
    assert !InsidePolygon(polygon, [BBox(0.0, 0.0, 0.0, 0.0)], Rect(0.1, 0.9, 0.3, 0.7)[0]);
  }

  /** The unit square with the hole [0.4, 0.6] x [0.4, 0.6]. */
  const SquareWithHole: GeoPolygon := GeoPolygon(Rect(0.0, 1.0, 0.0, 1.0), [Rect(0.4, 0.6, 0.4, 0.6)])

  lemma SquareWithHoleBoxes()
    ensures BBoxesOf(SquareWithHole) == [BBox(1.0, 0.0, 1.0, 0.0), BBox(0.6, 0.4, 0.6, 0.4)]
  {
    RectBox(0.0, 1.0, 0.0, 1.0);
    RectBox(0.4, 0.6, 0.4, 0.6);
  }

  /** A square around the hole is not inside: it swallows the hole's first vertex. */
  lemma AroundHoleNotInside()
    ensures !LoopInsidePolygon(SquareWithHole, BBoxesOf(SquareWithHole), Rect(0.25, 0.75, 0.25, 0.75))
  {
    var r := Rect(0.25, 0.75, 0.25, 0.75);
    RectBox(0.25, 0.75, 0.25, 0.75);
    RectContainsInterior(0.25, 0.75, 0.25, 0.75, LatLng(0.4, 0.4));
    assert SquareWithHole.holes[0][0] == LatLng(0.4, 0.4);
    assert HoleVertexInside(SquareWithHole, r);
  }

  /** A square inside the hole is not inside: its first vertex is in the hole. */
  lemma InHoleNotInside()
    ensures !LoopInsidePolygon(SquareWithHole, BBoxesOf(SquareWithHole), Rect(0.45, 0.55, 0.45, 0.55))
  {
    var bs := BBoxesOf(SquareWithHole);
    SquareWithHoleBoxes();
    RectContainsInterior(0.4, 0.6, 0.4, 0.6, LatLng(0.45, 0.45));
    assert SquareWithHole.holes[0] == Rect(0.4, 0.6, 0.4, 0.6) && bs[1] == BBox(0.6, 0.4, 0.6, 0.4);
    assert LoopContains(SquareWithHole.holes[0], bs[1], LatLng(0.45, 0.45));
    assert !InsidePolygon(SquareWithHole, bs, Rect(0.45, 0.55, 0.45, 0.55)[0]);
  }

  /**
   * A rectangle through the hole is not inside: its vertices are all in the
   * polygon, but its east edge crosses the hole's south edge.
   */
  lemma ThroughHoleNotInside()
    ensures !LoopInsidePolygon(SquareWithHole, BBoxesOf(SquareWithHole), Rect(0.3, 0.7, 0.45, 0.55))
  {
    var bs, r := BBoxesOf(SquareWithHole), Rect(0.3, 0.7, 0.45, 0.55);
    var hole := SquareWithHole.holes[0];
    SquareWithHoleBoxes();
    var q := QueryOf(bs[1], r[1], r[2]);
    assert q == Query(r[1], r[2], false);
    assert ToVec(r[1], false) == Vec2d(0.55, 0.3) && ToVec(r[2], false) == Vec2d(0.55, 0.7);
    assert ToVec(hole[0], false) == Vec2d(0.4, 0.4) && ToVec(Next(hole, 0), false) == Vec2d(0.6, 0.4);
    AxisSegmentsCross(0.55, 0.3, 0.7, 0.4, 0.6, 0.4);
    MeetsByCrossing(hole, bs[1], r[1], r[2], q, 0);
    assert !EdgeClearAt(SquareWithHole, bs, r, 1);
  }

  /** A square inside, and one with a vertex inside, intersect the square, in both variants. */
  lemma SquaresWithVertexInsideIntersect(v: Variant)
    ensures IntersectsVerdict(Square, BBoxesOf(Square), v, Rect(0.25, 0.75, 0.25, 0.75))
    ensures IntersectsVerdict(Square, BBoxesOf(Square), v, Rect(0.5, 1.5, 0.5, 1.5))
  {
    var bs := BBoxesOf(Square);
    SquareBoxes();
    RectContainsInterior(0.0, 1.0, 0.0, 1.0, LatLng(0.25, 0.25));
    RectContainsInterior(0.0, 1.0, 0.0, 1.0, LatLng(0.5, 0.5));
    VertexInsideIntersects(Square, bs, v, Rect(0.25, 0.75, 0.25, 0.75), 0);
    VertexInsideIntersects(Square, bs, v, Rect(0.5, 1.5, 0.5, 1.5), 0);
  }

  /** A square beyond the north-east corner does not intersect: no vertex is in the box, and every edge lies north of it. */
  lemma OutsideSquareMisses(v: Variant)
    ensures !IntersectsVerdict(Square, BBoxesOf(Square), v, Rect(1.1, 1.2, 1.1, 1.2))
  {
    NorthOfSquareMisses(v, 1.1, 1.2, 1.1, 1.2);
  }

  /** Any rectangle wholly north of the square misses it. */
  lemma NorthOfSquareMisses(v: Variant, s: real, n: real, w: real, e: real)
    requires 1.0 < s <= n
    ensures !IntersectsVerdict(Square, BBoxesOf(Square), v, Rect(s, n, w, e))
  {
    var bs, r := BBoxesOf(Square), Rect(s, n, w, e);
    SquareBoxes();
    OutsideLoopEdgesDecide(Square, bs, v, r);
    var sw, se, ne, nw := LatLng(s, w), LatLng(s, e), LatLng(n, e), LatLng(n, w);
    SegmentMeetsLoopRejects(Square.geoloop, bs[0], sw, se);
    SegmentMeetsLoopRejects(Square.geoloop, bs[0], se, ne);
    SegmentMeetsLoopRejects(Square.geoloop, bs[0], ne, nw);
    SegmentMeetsLoopRejects(Square.geoloop, bs[0], nw, sw);
    assert r == [sw, se, ne, nw] && Next(r, 3) == sw;
  }

  /**
   * A band across the square with no vertex inside intersects it: its east
   * edge crosses the square's south edge.
   */
  lemma BandAcrossSquareIntersects(v: Variant)
    ensures IntersectsVerdict(Square, BBoxesOf(Square), v, Rect(-0.1, 1.1, 0.3, 0.7))
  {
    var bs, r := BBoxesOf(Square), Rect(-0.1, 1.1, 0.3, 0.7);
    var ring := Square.geoloop;
    SquareBoxes();
    OutsideLoopEdgesDecide(Square, bs, v, r);
    var q := QueryOf(bs[0], r[1], r[2]);
    assert q == Query(r[1], r[2], false);
    assert ToVec(r[1], false) == Vec2d(0.7, -0.1) && ToVec(r[2], false) == Vec2d(0.7, 1.1);
    assert ToVec(ring[0], false) == Vec2d(0.0, 0.0) && ToVec(Next(ring, 0), false) == Vec2d(1.0, 0.0);
    AxisSegmentsCross(0.7, -0.1, 1.1, 0.0, 1.0, 0.0);
    MeetsByCrossing(ring, bs[0], r[1], r[2], q, 0);
    assert EdgesMeet(ring, bs[0], r);
  }
}
