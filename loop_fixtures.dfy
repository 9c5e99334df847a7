/**
 * Concrete loops from the library's loop-algorithm tests: the San Francisco
 * loop, the unit square and its corners and edge points, the wedge and the
 * loop across the antimeridian under the ray test; segments against the
 * touch triangle and the San Francisco loop; bounding boxes of small loops;
 * and the orientation of triangles, squares and a loop across the
 * antimeridian.
 */
module LoopFixtures {
  import opened Geo
  import opened PolygonAlgos

  /** A scan over a four-vertex loop that passes through the given states, one edge at a time; the fourth edge closes the loop. */
  lemma ScanOfFour(loop: seq<LatLng>, tm: bool, s0: RayState, s1: RayState, s2: RayState, s3: RayState, s4: RayState)
    requires |loop| == 4
    requires RayStep(s0, loop[0], loop[1], tm) == s1 && RayStep(s1, loop[1], loop[2], tm) == s2
    requires RayStep(s2, loop[2], loop[3], tm) == s3 && RayStep(s3, loop[3], loop[0], tm) == s4
    ensures RayScan(loop, tm, s0, 4) == s4
  {
    assert RayScan(loop, tm, s0, 1) == s1;
    assert RayScan(loop, tm, s0, 2) == s2;
    assert RayScan(loop, tm, s0, 3) == s3;
    assert Next(loop, 3) == loop[0];
  }

  /** The unit square of the point-in-loop tests, as (lat, lng) pairs. */
  const UnitSquare: seq<LatLng> := [LatLng(0.0, 0.0), LatLng(1.0, 0.0), LatLng(1.0, 1.0), LatLng(0.0, 1.0)]

  /** bboxFrom of the unit square is [0, 1] x [0, 1]. */
  lemma UnitSquareBox()
    ensures BBoxOf(UnitSquare) == BBox(1.0, 0.0, 1.0, 0.0)
  {
    var sq := UnitSquare;
    assert !WideEdge(sq, 0) && !WideEdge(sq, 1) && !WideEdge(sq, 2) && !WideEdge(sq, 3);
    var lats, lngs := Lats(sq), Lngs(sq);
    assert lats == [0.0, 1.0, 1.0, 0.0];
    assert lngs == [0.0, 0.0, 1.0, 1.0];
    assert MaxFrom(lats, 1, -DBL_MAX) == 0.0;
    assert MaxFrom(lats, 2, -DBL_MAX) == 1.0;
    assert MaxFrom(lats, 3, -DBL_MAX) == 1.0;
    assert MaxFrom(lats, 4, -DBL_MAX) == 1.0;
    assert MinFrom(lats, 1, DBL_MAX) == 0.0;
    assert MinFrom(lats, 2, DBL_MAX) == 0.0;
    assert MinFrom(lats, 3, DBL_MAX) == 0.0;
    assert MinFrom(lats, 4, DBL_MAX) == 0.0;
    assert MaxFrom(lngs, 1, -DBL_MAX) == 0.0;
    assert MaxFrom(lngs, 2, -DBL_MAX) == 0.0;
    assert MaxFrom(lngs, 3, -DBL_MAX) == 1.0;
    assert MaxFrom(lngs, 4, -DBL_MAX) == 1.0;
    assert MinFrom(lngs, 1, DBL_MAX) == 0.0;
    assert MinFrom(lngs, 2, DBL_MAX) == 0.0;
    assert MinFrom(lngs, 3, DBL_MAX) == 0.0;
    assert MinFrom(lngs, 4, DBL_MAX) == 0.0;
  }

  /** The nudges the unit-square cases make land on doubles, so none of them rounds. */
  lemma UnitSquareNudges()
    ensures PlusEps(0.0) == EPS && PlusEps(1.0) == 1.0 + EPS
    ensures MinusEps(0.0) == -EPS && MinusEps(1.0) == 1.0 - EPS
  {
    RoundKeepsEpsGrid(1);
    RoundKeepsEpsGrid(0x10_0000_0000_0001);
    RoundKeepsEpsGrid(-1);
    RoundKeepsEpsGrid(0xF_FFFF_FFFF_FFFF);
  }

  /** Along a meridian the ray meets the edge at the edge's own longitude, whatever the latitude. */
  lemma MeridianCrossing(a: LatLng, b: LatLng, lat: real)
    requires a.lat < b.lat && a.lng == b.lng
    ensures CrossingLng(a, b, lat, false) == a.lng
  {
  }

  /** The west and east edges of the unit square meet every parallel at longitudes 0 and 1. */
  lemma SquareMeridians(lat: real)
    ensures CrossingLng(UnitSquare[0], UnitSquare[1], lat, false) == 0.0
    ensures CrossingLng(UnitSquare[3], UnitSquare[2], lat, false) == 1.0
  {
    MeridianCrossing(UnitSquare[0], UnitSquare[1], lat);
    MeridianCrossing(UnitSquare[3], UnitSquare[2], lat);
  }

  /** The (0, 0) corner is not contained: nudged north and west, its ray crosses the west and the east edge. */
  lemma SouthWestCorner()
    ensures !LoopContains(UnitSquare, BBox(1.0, 0.0, 1.0, 0.0), LatLng(0.0, 0.0))
  {
    var sq := UnitSquare;
    var s0 := RayState(0.0, 0.0, false);
    UnitSquareNudges();
    SquareMeridians(EPS);
    var s1 := RayState(EPS, -EPS, true);
    assert RayStep(s0, sq[0], sq[1], false) == s1;
    var s2 := RayState(EPS, -EPS, true);
    assert RayStep(s1, sq[1], sq[2], false) == s2;
    var s3 := RayState(EPS, -EPS, false);
    assert RayStep(s2, sq[2], sq[3], false) == s3;
    var s4 := RayState(EPS, -EPS, false);
    assert RayStep(s3, sq[3], sq[0], false) == s4;
    ScanOfFour(sq, false, s0, s1, s2, s3, s4);
  }
  /** The (1, 0) corner is not contained: the nudge north puts it above the square. */
  lemma NorthWestCorner()
    ensures !LoopContains(UnitSquare, BBox(1.0, 0.0, 1.0, 0.0), LatLng(1.0, 0.0))
  {
    var sq := UnitSquare;
    var s0 := RayState(1.0, 0.0, false);
    UnitSquareNudges();
    SquareMeridians(1.0 + EPS);
    var s1 := RayState(1.0 + EPS, 0.0, false);
    assert RayStep(s0, sq[0], sq[1], false) == s1;
    var s2 := RayState(1.0 + EPS, 0.0, false);
    assert RayStep(s1, sq[1], sq[2], false) == s2;
    var s3 := RayState(1.0 + EPS, 0.0, false);
    assert RayStep(s2, sq[2], sq[3], false) == s3;
    var s4 := RayState(1.0 + EPS, 0.0, false);
    assert RayStep(s3, sq[3], sq[0], false) == s4;
    ScanOfFour(sq, false, s0, s1, s2, s3, s4);
  }
  /** The (1, 1) corner is not contained: the nudge north puts it above the square. */
  lemma NorthEastCorner()
    ensures !LoopContains(UnitSquare, BBox(1.0, 0.0, 1.0, 0.0), LatLng(1.0, 1.0))
  {
    var sq := UnitSquare;
    var s0 := RayState(1.0, 1.0, false);
    UnitSquareNudges();
    SquareMeridians(1.0 + EPS);
    var s1 := RayState(1.0 + EPS, 1.0, false);
    assert RayStep(s0, sq[0], sq[1], false) == s1;
    var s2 := RayState(1.0 + EPS, 1.0, false);
    assert RayStep(s1, sq[1], sq[2], false) == s2;
    var s3 := RayState(1.0 + EPS, 1.0, false);
    assert RayStep(s2, sq[2], sq[3], false) == s3;
    var s4 := RayState(1.0 + EPS, 1.0, false);
    assert RayStep(s3, sq[3], sq[0], false) == s4;
    ScanOfFour(sq, false, s0, s1, s2, s3, s4);
  }
  /** The (0, 1) corner is contained: nudged north and west, it lies just inside. */
  lemma SouthEastCorner()
    ensures LoopContains(UnitSquare, BBox(1.0, 0.0, 1.0, 0.0), LatLng(0.0, 1.0))
  {
    var sq := UnitSquare;
    var s0 := RayState(0.0, 1.0, false);
    UnitSquareNudges();
    SquareMeridians(EPS);
    var s1 := RayState(EPS, 1.0, false);
    assert RayStep(s0, sq[0], sq[1], false) == s1;
    var s2 := RayState(EPS, 1.0, false);
    assert RayStep(s1, sq[1], sq[2], false) == s2;
    var s3 := RayState(EPS, 1.0 - EPS, true);
    assert RayStep(s2, sq[2], sq[3], false) == s3;
    var s4 := RayState(EPS, 1.0 - EPS, true);
    assert RayStep(s3, sq[3], sq[0], false) == s4;
    ScanOfFour(sq, false, s0, s1, s2, s3, s4);
  }
  /** A point of the west edge is not contained. */
  lemma WestEdgePoint()
    ensures !LoopContains(UnitSquare, BBox(1.0, 0.0, 1.0, 0.0), LatLng(0.5, 0.0))
  {
    var sq := UnitSquare;
    var s0 := RayState(0.5, 0.0, false);
    UnitSquareNudges();
    SquareMeridians(0.5);
    var s1 := RayState(0.5, -EPS, true);
    assert RayStep(s0, sq[0], sq[1], false) == s1;
    var s2 := RayState(0.5, -EPS, true);
    assert RayStep(s1, sq[1], sq[2], false) == s2;
    var s3 := RayState(0.5, -EPS, false);
    assert RayStep(s2, sq[2], sq[3], false) == s3;
    var s4 := RayState(0.5, -EPS, false);
    assert RayStep(s3, sq[3], sq[0], false) == s4;
    ScanOfFour(sq, false, s0, s1, s2, s3, s4);
  }
  /** A point of the north edge is not contained. */
  lemma NorthEdgePoint()
    ensures !LoopContains(UnitSquare, BBox(1.0, 0.0, 1.0, 0.0), LatLng(1.0, 0.5))
  {
    var sq := UnitSquare;
    var s0 := RayState(1.0, 0.5, false);
    UnitSquareNudges();
    SquareMeridians(1.0 + EPS);
    var s1 := RayState(1.0 + EPS, 0.5, false);
    assert RayStep(s0, sq[0], sq[1], false) == s1;
    var s2 := RayState(1.0 + EPS, 0.5, false);
    assert RayStep(s1, sq[1], sq[2], false) == s2;
    var s3 := RayState(1.0 + EPS, 0.5, false);
    assert RayStep(s2, sq[2], sq[3], false) == s3;
    var s4 := RayState(1.0 + EPS, 0.5, false);
    assert RayStep(s3, sq[3], sq[0], false) == s4;
    ScanOfFour(sq, false, s0, s1, s2, s3, s4);
  }
  /** A point of the east edge is contained. */
  lemma EastEdgePoint()
    ensures LoopContains(UnitSquare, BBox(1.0, 0.0, 1.0, 0.0), LatLng(0.5, 1.0))
  {
    var sq := UnitSquare;
    var s0 := RayState(0.5, 1.0, false);
    UnitSquareNudges();
    SquareMeridians(0.5);
    var s1 := RayState(0.5, 1.0, false);
    assert RayStep(s0, sq[0], sq[1], false) == s1;
    var s2 := RayState(0.5, 1.0, false);
    assert RayStep(s1, sq[1], sq[2], false) == s2;
    var s3 := RayState(0.5, 1.0 - EPS, true);
    assert RayStep(s2, sq[2], sq[3], false) == s3;
    var s4 := RayState(0.5, 1.0 - EPS, true);
    assert RayStep(s3, sq[3], sq[0], false) == s4;
    ScanOfFour(sq, false, s0, s1, s2, s3, s4);
  }
  /** A point of the south edge is contained. */
  lemma SouthEdgePoint()
    ensures LoopContains(UnitSquare, BBox(1.0, 0.0, 1.0, 0.0), LatLng(0.0, 0.5))
  {
    var sq := UnitSquare;
    var s0 := RayState(0.0, 0.5, false);
    UnitSquareNudges();
    SquareMeridians(EPS);
    var s1 := RayState(EPS, 0.5, false);
    assert RayStep(s0, sq[0], sq[1], false) == s1;
    var s2 := RayState(EPS, 0.5, false);
    assert RayStep(s1, sq[1], sq[2], false) == s2;
    var s3 := RayState(EPS, 0.5, true);
    assert RayStep(s2, sq[2], sq[3], false) == s3;
    var s4 := RayState(EPS, 0.5, true);
    assert RayStep(s3, sq[3], sq[0], false) == s4;
    ScanOfFour(sq, false, s0, s1, s2, s3, s4);
  }

  /** bboxFrom of a loop without vertices is the all-zero box. */
  lemma EmptyLoopBox()
    ensures BBoxOf([]) == BBox(0.0, 0.0, 0.0, 0.0)
  {
  }

  /** bboxFrom of the sample loop of the bounding-box tests. */
  lemma SampleLoopBox()
    ensures BBoxOf([LatLng(0.8, 0.3), LatLng(0.7, 0.6), LatLng(1.1, 0.7), LatLng(1.0, 0.2)]) == BBox(1.1, 0.7, 0.7, 0.2)
  {
    var loop := [LatLng(0.8, 0.3), LatLng(0.7, 0.6), LatLng(1.1, 0.7), LatLng(1.0, 0.2)];
    assert !HasWideEdge(loop) by {
      forall i | 0 <= i < 4 ensures !WideEdge(loop, i) {
      }
    }
    var lats, lngs := Lats(loop), Lngs(loop);
    assert lats == [0.8, 0.7, 1.1, 1.0];
    assert lngs == [0.3, 0.6, 0.7, 0.2];
    assert MaxFrom(lats, 1, -DBL_MAX) == 0.8;
    assert MaxFrom(lats, 2, -DBL_MAX) == 0.8;
    assert MaxFrom(lats, 3, -DBL_MAX) == 1.1;
    assert MaxFrom(lats, 4, -DBL_MAX) == 1.1;
    assert MinFrom(lats, 1, DBL_MAX) == 0.8;
    assert MinFrom(lats, 2, DBL_MAX) == 0.7;
    assert MinFrom(lats, 3, DBL_MAX) == 0.7;
    assert MinFrom(lats, 4, DBL_MAX) == 0.7;
    assert MaxFrom(lngs, 1, -DBL_MAX) == 0.3;
    assert MaxFrom(lngs, 2, -DBL_MAX) == 0.6;
    assert MaxFrom(lngs, 3, -DBL_MAX) == 0.7;
    assert MaxFrom(lngs, 4, -DBL_MAX) == 0.7;
    assert MinFrom(lngs, 1, DBL_MAX) == 0.3;
    assert MinFrom(lngs, 2, DBL_MAX) == 0.3;
    assert MinFrom(lngs, 3, DBL_MAX) == 0.3;
    assert MinFrom(lngs, 4, DBL_MAX) == 0.2;
  }

  /** Proof helper for the orientation fixtures: the sum of four terms, written out. */
  lemma SumOfFour(xs: seq<real>)
    requires |xs| == 4
    ensures Sum(xs) == xs[0] + xs[1] + xs[2] + xs[3]
  {
    var a, b, c := xs[..1], xs[..2], xs[..3];
    assert a[..0] == [] && b[..1] == a && c[..2] == b;
    assert Sum(a) == xs[0];
    assert Sum(b) == xs[0] + xs[1];
    assert Sum(c) == xs[0] + xs[1] + xs[2];
  }

  /** Proof helper for the orientation fixtures: the sum of three terms, written out. */
  lemma SumOfThree(xs: seq<real>)
    requires |xs| == 3
    ensures Sum(xs) == xs[0] + xs[1] + xs[2]
  {
    var a, b := xs[..1], xs[..2];
    assert a[..0] == [] && b[..1] == a;
    assert Sum(a) == xs[0];
    assert Sum(b) == xs[0] + xs[1];
  }

  /** Proof helper for the orientation fixtures: a shoelace term once the longitude step of its edge is known. */
  lemma TermOfStep(a: LatLng, b: LatLng, step: real)
    requires b.lng - a.lng == step
    ensures ShoelaceTerm(a, b, false) == step * (b.lat + a.lat)
  {
  }

  /** The clockwise triangles of the isClockwise tests: side 0.1, south-west corner (o, o). */
  lemma ClockwiseTriangle(o: real)
    ensures Clockwise([LatLng(o, o), LatLng(o + 0.1, o + 0.1), LatLng(o, o + 0.1)])
  {
    var loop := [LatLng(o, o), LatLng(o + 0.1, o + 0.1), LatLng(o, o + 0.1)];
    assert !WideEdge(loop, 0) && !WideEdge(loop, 1) && !WideEdge(loop, 2);
    assert !HasWideEdge(loop);
    var ts := EdgeTerms(loop, false);
    TermOfStep(loop[0], loop[1], 0.1);
    TermOfStep(loop[1], loop[2], 0.0);
    TermOfStep(loop[2], loop[0], -0.1);
    assert ts[0] == 0.1 * (o + 0.1 + o);
    assert ts[1] == 0.0;
    assert ts[2] == -0.1 * (o + o);
    SumOfThree(ts);
  }

  /** The counter-clockwise square of the isClockwise tests: side 0.4, south-west corner (o, o). */
  lemma CounterClockwiseSquare(o: real)
    ensures !Clockwise([LatLng(o, o), LatLng(o, o + 0.4), LatLng(o + 0.4, o + 0.4), LatLng(o + 0.4, o)])
  {
    var loop := [LatLng(o, o), LatLng(o, o + 0.4), LatLng(o + 0.4, o + 0.4), LatLng(o + 0.4, o)];
    assert !WideEdge(loop, 0) && !WideEdge(loop, 1) && !WideEdge(loop, 2) && !WideEdge(loop, 3);
    assert !HasWideEdge(loop);
    var ts := EdgeTerms(loop, false);
    TermOfStep(loop[0], loop[1], 0.4);
    TermOfStep(loop[1], loop[2], 0.0);
    TermOfStep(loop[2], loop[3], -0.4);
    TermOfStep(loop[3], loop[0], 0.0);
    assert ts[0] == 0.4 * (o + o);
    assert ts[1] == 0.0;
    assert ts[2] == -0.4 * (o + 0.4 + o + 0.4);
    assert ts[3] == 0.0;
    SumOfFour(ts);
  }

  /** A loop across the antimeridian, listed clockwise: its wide edge switches on normalisation. */
  lemma ClockwiseAcrossAntimeridian()
    ensures Clockwise([LatLng(0.4, PI - 0.1), LatLng(0.4, -PI + 0.1), LatLng(-0.4, -PI + 0.1), LatLng(-0.4, PI - 0.1)])
  {
    var loop := [LatLng(0.4, PI - 0.1), LatLng(0.4, -PI + 0.1), LatLng(-0.4, -PI + 0.1), LatLng(-0.4, PI - 0.1)];
    assert WideEdge(loop, 0);
    var ts := EdgeTerms(loop, true);
    SumOfFour(ts);
    assert ts[0] == 0.16 && ts[1] == 0.0 && ts[2] == 0.16 && ts[3] == 0.0;
  }

  /** The same loop listed counter-clockwise. */
  lemma CounterClockwiseAcrossAntimeridian()
    ensures !Clockwise([LatLng(0.4, PI - 0.1), LatLng(-0.4, PI - 0.1), LatLng(-0.4, -PI + 0.1), LatLng(0.4, -PI + 0.1)])
  {
    var loop := [LatLng(0.4, PI - 0.1), LatLng(-0.4, PI - 0.1), LatLng(-0.4, -PI + 0.1), LatLng(0.4, -PI + 0.1)];
    assert WideEdge(loop, 1);
    var ts := EdgeTerms(loop, true);
    SumOfFour(ts);
    assert ts[0] == 0.0 && ts[1] == -0.16 && ts[2] == 0.0 && ts[3] == -0.16;
  }

  /** bboxFrom of the transmeridian loop of the bounding-box tests: east and west swap roles. */
  lemma TransmeridianLoopBox()
    ensures BBoxOf([LatLng(0.1, -PI + 0.1), LatLng(0.1, PI - 0.1), LatLng(0.05, PI - 0.2),
                    LatLng(-0.1, PI - 0.1), LatLng(-0.1, -PI + 0.1), LatLng(-0.05, -PI + 0.2)])
      == BBox(0.1, -0.1, -PI + 0.2, PI - 0.2)
  {
    var loop := [LatLng(0.1, -PI + 0.1), LatLng(0.1, PI - 0.1), LatLng(0.05, PI - 0.2),
                 LatLng(-0.1, PI - 0.1), LatLng(-0.1, -PI + 0.1), LatLng(-0.05, -PI + 0.2)];
    assert WideEdge(loop, 0);
    var lats, lngs := Lats(loop), Lngs(loop);
    assert lats == [0.1, 0.1, 0.05, -0.1, -0.1, -0.05];
    assert lngs == [-PI + 0.1, PI - 0.1, PI - 0.2, PI - 0.1, -PI + 0.1, -PI + 0.2];
    assert MaxFrom(lats, 1, -DBL_MAX) == 0.1;
    assert MaxFrom(lats, 2, -DBL_MAX) == 0.1;
    assert MaxFrom(lats, 3, -DBL_MAX) == 0.1;
    assert MaxFrom(lats, 4, -DBL_MAX) == 0.1;
    assert MaxFrom(lats, 5, -DBL_MAX) == 0.1;
    assert MaxFrom(lats, 6, -DBL_MAX) == 0.1;
    assert MinFrom(lats, 1, DBL_MAX) == 0.1;
    assert MinFrom(lats, 2, DBL_MAX) == 0.1;
    assert MinFrom(lats, 3, DBL_MAX) == 0.05;
    assert MinFrom(lats, 4, DBL_MAX) == -0.1;
    assert MinFrom(lats, 5, DBL_MAX) == -0.1;
    assert MinFrom(lats, 6, DBL_MAX) == -0.1;
    assert MinPositiveFrom(lngs, 1, DBL_MAX) == DBL_MAX;
    assert MinPositiveFrom(lngs, 2, DBL_MAX) == PI - 0.1;
    assert MinPositiveFrom(lngs, 3, DBL_MAX) == PI - 0.2;
    assert MinPositiveFrom(lngs, 4, DBL_MAX) == PI - 0.2;
    assert MinPositiveFrom(lngs, 5, DBL_MAX) == PI - 0.2;
    assert MinPositiveFrom(lngs, 6, DBL_MAX) == PI - 0.2;
    assert MaxNegativeFrom(lngs, 1, -DBL_MAX) == -PI + 0.1;
    assert MaxNegativeFrom(lngs, 2, -DBL_MAX) == -PI + 0.1;
    assert MaxNegativeFrom(lngs, 3, -DBL_MAX) == -PI + 0.1;
    assert MaxNegativeFrom(lngs, 4, -DBL_MAX) == -PI + 0.1;
    assert MaxNegativeFrom(lngs, 5, -DBL_MAX) == -PI + 0.1;
    assert MaxNegativeFrom(lngs, 6, -DBL_MAX) == -PI + 0.2;
  }
  // ---------------------------------------------------------------------
  // The San Francisco loop of the point-in-loop tests
  // ---------------------------------------------------------------------

  /** The six-vertex loop of the point-in-loop tests, each vertex the double nearest to the test's decimal literal. */
  const SfLoop: seq<LatLng> := [
      LatLng(0.6599669176550000404546381105319596827030181884765625, -2.13643985193959995427803733036853373050689697265625),
      LatLng(0.65950111022190005538590185096836648881435394287109375, -2.135943427940500072281793109141290187835693359375),
      LatLng(0.6583348114025000530347142557729966938495635986328125, -2.13548842060450017044104242813773453235626220703125),
      LatLng(0.6581220034068000490634631205466575920581817626953125, -2.13824377189459990944442324689589440822601318359375),
      LatLng(0.65944799985269997311121414895751513540744781494140625, -2.13845975638959995279719805694185197353363037109375),
      LatLng(0.6599990002975999470180568096111528575420379638671875, -2.13767711584640007771440650685690343379974365234375)]

  /** bboxFrom of the San Francisco loop: the extrema of its vertices. */
  lemma SfLoopBox()
    ensures BBoxOf(SfLoop) == BBox(SfLoop[5].lat, SfLoop[3].lat, SfLoop[2].lng, SfLoop[4].lng)
  {
    var v := SfLoop;
    assert forall i | 0 <= i < 6 :: !WideEdge(v, i);
    var lats, lngs := Lats(v), Lngs(v);
    assert lats == [v[0].lat, v[1].lat, v[2].lat, v[3].lat, v[4].lat, v[5].lat];
    assert lngs == [v[0].lng, v[1].lng, v[2].lng, v[3].lng, v[4].lng, v[5].lng];
    assert MaxFrom(lats, 1, -DBL_MAX) == v[0].lat;
    assert MaxFrom(lats, 2, -DBL_MAX) == v[0].lat;
    assert MaxFrom(lats, 3, -DBL_MAX) == v[0].lat;
    assert MaxFrom(lats, 4, -DBL_MAX) == v[0].lat;
    assert MaxFrom(lats, 5, -DBL_MAX) == v[0].lat;
    assert MaxFrom(lats, 6, -DBL_MAX) == v[5].lat;
    assert MinFrom(lats, 1, DBL_MAX) == v[0].lat;
    assert MinFrom(lats, 2, DBL_MAX) == v[1].lat;
    assert MinFrom(lats, 3, DBL_MAX) == v[2].lat;
    assert MinFrom(lats, 4, DBL_MAX) == v[3].lat;
    assert MinFrom(lats, 5, DBL_MAX) == v[3].lat;
    assert MinFrom(lats, 6, DBL_MAX) == v[3].lat;
    assert MaxFrom(lngs, 1, -DBL_MAX) == v[0].lng;
    assert MaxFrom(lngs, 2, -DBL_MAX) == v[1].lng;
    assert MaxFrom(lngs, 3, -DBL_MAX) == v[2].lng;
    assert MaxFrom(lngs, 4, -DBL_MAX) == v[2].lng;
    assert MaxFrom(lngs, 5, -DBL_MAX) == v[2].lng;
    assert MaxFrom(lngs, 6, -DBL_MAX) == v[2].lng;
    assert MinFrom(lngs, 1, DBL_MAX) == v[0].lng;
    assert MinFrom(lngs, 2, DBL_MAX) == v[0].lng;
    assert MinFrom(lngs, 3, DBL_MAX) == v[0].lng;
    assert MinFrom(lngs, 4, DBL_MAX) == v[3].lng;
    assert MinFrom(lngs, 5, DBL_MAX) == v[4].lng;
    assert MinFrom(lngs, 6, DBL_MAX) == v[4].lng;
  }

  /** A scan over a six-vertex loop that passes through the given states, one edge at a time; the sixth edge closes the loop. */
  lemma ScanOfSix(loop: seq<LatLng>, tm: bool, s: seq<RayState>)
    requires |loop| == 6 && |s| == 7
    requires RayStep(s[0], loop[0], loop[1], tm) == s[1] && RayStep(s[1], loop[1], loop[2], tm) == s[2]
    requires RayStep(s[2], loop[2], loop[3], tm) == s[3] && RayStep(s[3], loop[3], loop[4], tm) == s[4]
    requires RayStep(s[4], loop[4], loop[5], tm) == s[5] && RayStep(s[5], loop[5], loop[0], tm) == s[6]
    ensures RayScan(loop, tm, s[0], 6) == s[6]
  {
    assert RayScan(loop, tm, s[0], 1) == s[1];
    assert RayScan(loop, tm, s[0], 2) == s[2];
    assert RayScan(loop, tm, s[0], 3) == s[3];
    assert RayScan(loop, tm, s[0], 4) == s[4];
    assert RayScan(loop, tm, s[0], 5) == s[5];
    assert Next(loop, 5) == loop[0];
  }

  /**
   * The nudges at vertices 0 and 3. Their latitudes lie in [1/2, 1), where
   * doubles are EPS / 2 apart, so the northward step is exact; their
   * longitudes lie in (-4, -2], where doubles are 2 EPS apart, so the
   * westward step is a tie that rounds back to the (even) longitude itself.
   */
  lemma SfNudges()
    ensures PlusEps(SfLoop[0].lat) == SfLoop[0].lat + EPS && PlusEps(SfLoop[3].lat) == SfLoop[3].lat + EPS
    ensures MinusEps(SfLoop[0].lng) == SfLoop[0].lng && MinusEps(SfLoop[3].lng) == SfLoop[3].lng
  {
    var v := SfLoop;
    assert Ulp(v[0].lat + EPS) == EPS / 2.0;
    assert Ulp(v[3].lat + EPS) == EPS / 2.0;
    assert v[0].lat + EPS == 5944453528855828 as real * (EPS / 2.0);
    assert v[3].lat + EPS == 5927836018614380 as real * (EPS / 2.0);
    RoundKeepsMultiples(5944453528855828, EPS / 2.0);
    RoundKeepsMultiples(5927836018614380, EPS / 2.0);
    assert v[0].lng == -4810834860547330 as real * (2.0 * EPS);
    assert v[3].lng == -4814896927165902 as real * (2.0 * EPS);
    RoundTiesToEven(-4810834860547330, 2.0 * EPS);
    RoundTiesToEven(-4814896927165902, 2.0 * EPS);
  }

  /** Vertex 0 is not contained: nudged north, its ray meets no edge east of it. */
  lemma SfVertexZero()
    ensures !LoopContains(SfLoop, BBoxOf(SfLoop), SfLoop[0])
  {
    var v := SfLoop;
    SfLoopBox();
    SfNudges();
    var s0 := RayState(v[0].lat, v[0].lng, false);
    var s1 := RayState(v[0].lat + EPS, v[0].lng, false);
    assert RayStep(s0, v[0], v[1], false) == s1;
    assert RayStep(s1, v[1], v[2], false) == s1;
    assert RayStep(s1, v[2], v[3], false) == s1;
    assert RayStep(s1, v[3], v[4], false) == s1;
    assert RayStep(s1, v[4], v[5], false) == s1;
    assert RayStep(s1, v[5], v[0], false) == s1;
    ScanOfSix(v, false, [s0, s1, s1, s1, s1, s1, s1]);
  }

  /**
   * Vertex 3 is contained: nudged north, its ray crosses edge (2, 3) just
   * east of it; the westward nudge rounds away at this longitude.
   */
  lemma SfVertexThree()
    ensures LoopContains(SfLoop, BBoxOf(SfLoop), SfLoop[3])
  {
    var v := SfLoop;
    SfLoopBox();
    SfNudges();
    var s0 := RayState(v[3].lat, v[3].lng, false);
    var s3 := RayState(v[3].lat + EPS, v[3].lng, true);
    assert RayStep(s0, v[0], v[1], false) == s0;
    assert RayStep(s0, v[1], v[2], false) == s0;
    assert RayStep(s0, v[2], v[3], false) == s3;
    assert RayStep(s3, v[3], v[4], false) == s3;
    assert RayStep(s3, v[4], v[5], false) == s3;
    assert RayStep(s3, v[5], v[0], false) == s3;
    ScanOfSix(v, false, [s0, s0, s0, s3, s3, s3, s3]);
  }

  /** A point inside the loop is contained: its ray crosses edge (1, 2) only. */
  lemma SfInside()
    ensures LoopContains(SfLoop, BBoxOf(SfLoop), LatLng(0.659, -2.136))
  {
    var v := SfLoop;
    SfLoopBox();
    var s0 := RayState(0.659, -2.136, false);
    var s1 := RayState(0.659, -2.136, true);
    assert RayStep(s0, v[0], v[1], false) == s0;
    assert RayStep(s0, v[1], v[2], false) == s1;
    assert RayStep(s1, v[2], v[3], false) == s1;
    assert RayStep(s1, v[3], v[4], false) == s1;
    assert RayStep(s1, v[4], v[5], false) == s1;
    assert RayStep(s1, v[5], v[0], false) == s1;
    ScanOfSix(v, false, [s0, s0, s1, s1, s1, s1, s1]);
  }

  /** A point far away is outside the loop's box and so not contained. */
  lemma SfElsewhere()
    ensures !LoopContains(SfLoop, BBoxOf(SfLoop), LatLng(1.0, 2.0))
  {
    SfLoopBox();
  }

  // ---------------------------------------------------------------------
  // The remaining point-in-loop tests: a vertex at the query's longitude,
  // and a square across the antimeridian
  // ---------------------------------------------------------------------

  /** A scan over a three-vertex loop that passes through the given states; the third edge closes the loop. */
  lemma ScanOfThree(loop: seq<LatLng>, tm: bool, s0: RayState, s1: RayState, s2: RayState, s3: RayState)
    requires |loop| == 3
    requires RayStep(s0, loop[0], loop[1], tm) == s1 && RayStep(s1, loop[1], loop[2], tm) == s2
    requires RayStep(s2, loop[2], loop[0], tm) == s3
    ensures RayScan(loop, tm, s0, 3) == s3
  {
    assert RayScan(loop, tm, s0, 1) == s1;
    assert RayScan(loop, tm, s0, 2) == s2;
    assert Next(loop, 2) == loop[0];
  }

  /** The triangle whose middle vertex shares the query's longitude. */
  const Wedge: seq<LatLng> := [LatLng(0.0, 0.0), LatLng(1.0, 0.5), LatLng(0.0, 1.0)]

  lemma WedgeBox()
    ensures BBoxOf(Wedge) == BBox(1.0, 0.0, 1.0, 0.0)
  {
    var w := Wedge;
    assert !WideEdge(w, 0) && !WideEdge(w, 1) && !WideEdge(w, 2);
    var lats, lngs := Lats(w), Lngs(w);
    assert lats == [0.0, 1.0, 0.0];
    assert lngs == [0.0, 0.5, 1.0];
    assert MaxFrom(lats, 1, -DBL_MAX) == 0.0;
    assert MaxFrom(lats, 2, -DBL_MAX) == 1.0;
    assert MaxFrom(lats, 3, -DBL_MAX) == 1.0;
    assert MinFrom(lats, 1, DBL_MAX) == 0.0;
    assert MinFrom(lats, 2, DBL_MAX) == 0.0;
    assert MinFrom(lats, 3, DBL_MAX) == 0.0;
    assert MaxFrom(lngs, 1, -DBL_MAX) == 0.0;
    assert MaxFrom(lngs, 2, -DBL_MAX) == 0.5;
    assert MaxFrom(lngs, 3, -DBL_MAX) == 1.0;
    assert MinFrom(lngs, 1, DBL_MAX) == 0.0;
    assert MinFrom(lngs, 2, DBL_MAX) == 0.0;
    assert MinFrom(lngs, 3, DBL_MAX) == 0.0;
  }

  /**
   * The query (0.5, 0.5) is contained: the first edge ends at its longitude,
   * so it moves west by EPS, and then only the second edge lies east of it.
   */
  lemma WedgeContainsMidpoint()
    ensures LoopContains(Wedge, BBoxOf(Wedge), LatLng(0.5, 0.5))
  {
    var w := Wedge;
    WedgeBox();
    RoundKeepsEpsGrid(0x7_FFFF_FFFF_FFFF);
    assert MinusEps(0.5) == 0.5 - EPS;
    var s0 := RayState(0.5, 0.5, false);
    var s1 := RayState(0.5, 0.5 - EPS, false);
    var s2 := RayState(0.5, 0.5 - EPS, true);
    assert RayStep(s0, w[0], w[1], false) == s1;
    assert RayStep(s1, w[1], w[2], false) == s2;
    assert RayStep(s2, w[2], w[0], false) == s2;
    ScanOfThree(w, false, s0, s1, s2, s2);
  }

  /** The square of the point-in-loop tests that straddles the antimeridian. */
  const AcrossAntimeridian: seq<LatLng> :=
    [LatLng(0.01, -PI + 0.01), LatLng(0.01, PI - 0.01), LatLng(-0.01, PI - 0.01), LatLng(-0.01, -PI + 0.01)]

  /** Its box is transmeridian: east is the largest negative longitude, west the smallest positive one. */
  lemma AcrossAntimeridianBox()
    ensures BBoxOf(AcrossAntimeridian) == BBox(0.01, -0.01, -PI + 0.01, PI - 0.01)
  {
    var sq := AcrossAntimeridian;
    assert WideEdge(sq, 0);
    var lats, lngs := Lats(sq), Lngs(sq);
    assert lats == [0.01, 0.01, -0.01, -0.01];
    assert lngs == [-PI + 0.01, PI - 0.01, PI - 0.01, -PI + 0.01];
    assert MaxFrom(lats, 1, -DBL_MAX) == 0.01;
    assert MaxFrom(lats, 2, -DBL_MAX) == 0.01;
    assert MaxFrom(lats, 3, -DBL_MAX) == 0.01;
    assert MaxFrom(lats, 4, -DBL_MAX) == 0.01;
    assert MinFrom(lats, 1, DBL_MAX) == 0.01;
    assert MinFrom(lats, 2, DBL_MAX) == 0.01;
    assert MinFrom(lats, 3, DBL_MAX) == -0.01;
    assert MinFrom(lats, 4, DBL_MAX) == -0.01;
    assert MinPositiveFrom(lngs, 1, DBL_MAX) == DBL_MAX;
    assert MinPositiveFrom(lngs, 2, DBL_MAX) == PI - 0.01;
    assert MinPositiveFrom(lngs, 3, DBL_MAX) == PI - 0.01;
    assert MinPositiveFrom(lngs, 4, DBL_MAX) == PI - 0.01;
    assert MaxNegativeFrom(lngs, 1, -DBL_MAX) == -PI + 0.01;
    assert MaxNegativeFrom(lngs, 2, -DBL_MAX) == -PI + 0.01;
    assert MaxNegativeFrom(lngs, 3, -DBL_MAX) == -PI + 0.01;
    assert MaxNegativeFrom(lngs, 4, -DBL_MAX) == -PI + 0.01;
  }

  /**
   * A point just east of the antimeridian is contained: normalised by a full
   * turn, its ray crosses the normalised eastern side only.
   */
  lemma AcrossAntimeridianEastPoint()
    ensures LoopContains(AcrossAntimeridian, BBoxOf(AcrossAntimeridian), LatLng(0.001, -PI + 0.001))
  {
    var sq := AcrossAntimeridian;
    AcrossAntimeridianBox();
    var s0 := RayState(0.001, -PI + 0.001 + TWO_PI, false);
    var s1 := RayState(0.001, -PI + 0.001 + TWO_PI, true);
    assert RayStep(s0, sq[0], sq[1], true) == s0;
    assert RayStep(s0, sq[1], sq[2], true) == s0;
    assert RayStep(s0, sq[2], sq[3], true) == s0;
    assert RayStep(s0, sq[3], sq[0], true) == s1;
    ScanOfFour(sq, true, s0, s0, s0, s0, s1);
  }

  /** A point just west of the antimeridian is contained the same way. */
  lemma AcrossAntimeridianWestPoint()
    ensures LoopContains(AcrossAntimeridian, BBoxOf(AcrossAntimeridian), LatLng(0.001, PI - 0.001))
  {
    var sq := AcrossAntimeridian;
    AcrossAntimeridianBox();
    var s0 := RayState(0.001, PI - 0.001, false);
    var s1 := RayState(0.001, PI - 0.001, true);
    assert RayStep(s0, sq[0], sq[1], true) == s0;
    assert RayStep(s0, sq[1], sq[2], true) == s0;
    assert RayStep(s0, sq[2], sq[3], true) == s0;
    assert RayStep(s0, sq[3], sq[0], true) == s1;
    ScanOfFour(sq, true, s0, s0, s0, s0, s1);
  }

  /** Points a tenth of a radian from the antimeridian, on either side, lie outside the box and are not contained. */
  lemma AcrossAntimeridianOutsidePoints()
    ensures !LoopContains(AcrossAntimeridian, BBoxOf(AcrossAntimeridian), LatLng(0.001, -PI + 0.1))
    ensures !LoopContains(AcrossAntimeridian, BBoxOf(AcrossAntimeridian), LatLng(0.001, PI - 0.1))
  {
    AcrossAntimeridianBox();
  }

  // ---------------------------------------------------------------------
  // segmentIntersects on a triangle and on the San Francisco loop
  // ---------------------------------------------------------------------

  /** The triangle of the segment touch tests. */
  const TouchTriangle: seq<LatLng> := [LatLng(0.0, 0.0), LatLng(0.0, 1.0), LatLng(1.0, 1.0)]

  lemma TouchTriangleBox()
    ensures BBoxOf(TouchTriangle) == BBox(1.0, 0.0, 1.0, 0.0)
  {
    var t := TouchTriangle;
    assert !WideEdge(t, 0) && !WideEdge(t, 1) && !WideEdge(t, 2);
    var lats, lngs := Lats(t), Lngs(t);
    assert lats == [0.0, 0.0, 1.0];
    assert lngs == [0.0, 1.0, 1.0];
    assert MaxFrom(lats, 1, -DBL_MAX) == 0.0;
    assert MaxFrom(lats, 2, -DBL_MAX) == 0.0;
    assert MaxFrom(lats, 3, -DBL_MAX) == 1.0;
    assert MinFrom(lats, 1, DBL_MAX) == 0.0;
    assert MinFrom(lats, 2, DBL_MAX) == 0.0;
    assert MinFrom(lats, 3, DBL_MAX) == 0.0;
    assert MaxFrom(lngs, 1, -DBL_MAX) == 0.0;
    assert MaxFrom(lngs, 2, -DBL_MAX) == 1.0;
    assert MaxFrom(lngs, 3, -DBL_MAX) == 1.0;
    assert MinFrom(lngs, 1, DBL_MAX) == 0.0;
    assert MinFrom(lngs, 2, DBL_MAX) == 0.0;
    assert MinFrom(lngs, 3, DBL_MAX) == 0.0;
  }

  /**
   * The diagonal edge reports a meeting with any segment that starts on it
   * and ends at the triangle's missing corner: the edge is examined, and the
   * start is collinear with it and within its span.
   */
  lemma DiagonalReports(m: real)
    requires 0.0 <= m <= 1.0
    ensures EdgeReports(TouchTriangle, Query(LatLng(m, m), LatLng(1.0, 0.0), false), 2)
  {
    var t, q := TouchTriangle, Query(LatLng(m, m), LatLng(1.0, 0.0), false);
    var v0, va, vb := Vec2d(m, m), Vec2d(1.0, 1.0), Vec2d(0.0, 0.0);
    assert ToVec(q.p0, false) == v0 && ToVec(t[2], false) == va && ToVec(Next(t, 2), false) == vb;
    assert Cross(va, vb, v0) == 0.0;
    assert CollinearTouch(va, vb, v0);
  }

  /** A segment starting on the diagonal edge meets the triangle: that edge touches its first endpoint. */
  lemma SegmentFromEdgeMeets()
    ensures SegmentMeetsLoop(TouchTriangle, BBoxOf(TouchTriangle), LatLng(0.5, 0.5), LatLng(1.0, 0.0))
  {
    var p0, p1 := LatLng(0.5, 0.5), LatLng(1.0, 0.0);
    var box := BBox(1.0, 0.0, 1.0, 0.0);
    TouchTriangleBox();
    assert QueryOf(box, p0, p1) == Query(p0, p1, false);
    DiagonalReports(0.5);
    MeetsAt(TouchTriangle, box, p0, p1, Query(p0, p1, false), 2);
  }




  // The segment from (1.01, 1.01), on the diagonal's line past its end, to
  // the missing corner (1, 0), in the plane (lng, lat). Each lemma evaluates
  // at most two orientations: more at once makes the arithmetic slow.

  lemma BeyondEastSides()
    ensures Orient(Vec2d(1.01, 1.01), Vec2d(0.0, 1.0), Vec2d(1.0, 0.0)) == 1
    ensures Orient(Vec2d(1.01, 1.01), Vec2d(0.0, 1.0), Vec2d(1.0, 1.0)) == 1
  {
  }

  lemma BeyondEastEnds()
    ensures Orient(Vec2d(1.0, 0.0), Vec2d(1.0, 1.0), Vec2d(1.01, 1.01)) == -1
    ensures Orient(Vec2d(1.0, 0.0), Vec2d(1.0, 1.0), Vec2d(0.0, 1.0)) == 1
  {
  }

  lemma BeyondDiagonalSides()
    ensures Orient(Vec2d(1.01, 1.01), Vec2d(0.0, 1.0), Vec2d(1.0, 1.0)) == 1
    ensures Orient(Vec2d(1.01, 1.01), Vec2d(0.0, 1.0), Vec2d(0.0, 0.0)) == 1
  {
  }

  /** The segment's start is on the diagonal's line, but outside its span. */
  lemma BeyondDiagonalEnds()
    ensures !CollinearTouch(Vec2d(1.0, 1.0), Vec2d(0.0, 0.0), Vec2d(1.01, 1.01))
    ensures Orient(Vec2d(1.0, 1.0), Vec2d(0.0, 0.0), Vec2d(0.0, 1.0)) == -1
  {
    assert !InSpan(Vec2d(1.01, 1.01), Vec2d(1.0, 1.0), Vec2d(0.0, 0.0));
  }

  /** The east edge has both ends on one side of the segment and touches neither of its ends. */
  lemma BeyondEastQuiet()
    ensures !Touches(Vec2d(1.01, 1.01), Vec2d(0.0, 1.0), Vec2d(1.0, 0.0), Vec2d(1.0, 1.0))
    ensures !ProperCrossing(Vec2d(1.01, 1.01), Vec2d(0.0, 1.0), Vec2d(1.0, 0.0), Vec2d(1.0, 1.0))
  {
    BeyondEastSides();
    BeyondEastEnds();
  }

  /** So has the diagonal. */
  lemma BeyondDiagonalQuiet()
    ensures !Touches(Vec2d(1.01, 1.01), Vec2d(0.0, 1.0), Vec2d(1.0, 1.0), Vec2d(0.0, 0.0))
    ensures !ProperCrossing(Vec2d(1.01, 1.01), Vec2d(0.0, 1.0), Vec2d(1.0, 1.0), Vec2d(0.0, 0.0))
  {
    BeyondDiagonalSides();
    BeyondDiagonalEnds();
  }

  /**
   * No edge reports the segment: the south edge is pruned, so no edge
   * matches its start, and the other two edges neither touch nor cross it.
   */
  lemma BeyondQuiet()
    ensures forall i :: 0 <= i < 3 ==> !EdgeReports(TouchTriangle, Query(LatLng(1.01, 1.01), LatLng(1.0, 0.0), false), i)
  {
    var t, q := TouchTriangle, Query(LatLng(1.01, 1.01), LatLng(1.0, 0.0), false);
    assert ToVec(q.p0, false) == Vec2d(1.01, 1.01) && ToVec(q.p1, false) == Vec2d(0.0, 1.0);
    assert ToVec(t[0], false) == Vec2d(0.0, 0.0) && ToVec(t[1], false) == Vec2d(1.0, 0.0);
    assert ToVec(t[2], false) == Vec2d(1.0, 1.0) && Next(t, 2) == t[0];
    assert Pruned(t, q, 0);
    assert !NoPrunedBefore(t, q, 1) && !NoPrunedBefore(t, q, 2);
    BeyondEastQuiet();
    BeyondDiagonalQuiet();
    QuietEdge(t, q, 1);
    QuietEdge(t, q, 2);
  }

  /**
   * A segment whose first endpoint is collinear with the diagonal edge, but
   * beyond its end, meets nothing.
   */
  lemma CollinearBeyondEdgeMisses()
    ensures !SegmentMeetsLoop(TouchTriangle, BBoxOf(TouchTriangle), LatLng(1.01, 1.01), LatLng(1.0, 0.0))
  {
    var p0, p1 := LatLng(1.01, 1.01), LatLng(1.0, 0.0);
    TouchTriangleBox();
    assert QueryOf(BBox(1.0, 0.0, 1.0, 0.0), p0, p1) == Query(p0, p1, false);
    BeyondQuiet();
  }


  /** A segment through the triangle's north-east vertex meets it: the vertex touches the segment. */
  lemma SegmentThroughVertexMeets()
    ensures SegmentMeetsLoop(TouchTriangle, BBoxOf(TouchTriangle), LatLng(1.5, 0.5), LatLng(0.5, 1.5))
  {
    var t, p0, p1 := TouchTriangle, LatLng(1.5, 0.5), LatLng(0.5, 1.5);
    var box := BBox(1.0, 0.0, 1.0, 0.0);
    TouchTriangleBox();
    var q := QueryOf(box, p0, p1);
    assert !q.tm;
    assert CollinearTouch(ToVec(p0, false), ToVec(p1, false), ToVec(t[2], false));
    MeetsByTouch(t, box, p0, p1, q, 1);
  }

  /** A segment on the line through that vertex, but wholly north of the box, meets nothing. */
  lemma SegmentNorthOfBoxMisses()
    ensures !SegmentMeetsLoop(TouchTriangle, BBoxOf(TouchTriangle), LatLng(1.5, 0.5), LatLng(2.0, 0.0))
  {
    TouchTriangleBox();
    SegmentMeetsLoopRejects(TouchTriangle, BBoxOf(TouchTriangle), LatLng(1.5, 0.5), LatLng(2.0, 0.0));
  }

  /** A segment starting at the first vertex of the San Francisco loop meets it at once, by the endpoint match. */
  lemma SegmentFromSfVertexMeets()
    ensures SegmentMeetsLoop(SfLoop, BBoxOf(SfLoop), SfLoop[0], LatLng(0.660, -2.135))
  {
    var p0, p1 := SfLoop[0], LatLng(0.660, -2.135);
    SfLoopBox();
    var q := QueryOf(BBoxOf(SfLoop), p0, p1);
    assert !q.tm;
    assert !Pruned(SfLoop, q, 0);
    assert AlmostEqualThreshold(p0, SfLoop[0], EPS);
    MeetsByEndpoint(SfLoop, BBoxOf(SfLoop), p0, p1, q, 0);
  }
}
