/**
 * The loop geometry engine: point containment by ray casting, segment
 * intersection, bounding box and winding order over one loop of vertices.
 *
 * A loop is a sequence of vertices; edge i runs from loop[i] to
 * loop[(i + 1) % |loop|], so the last edge closes the loop and a loop of a
 * single vertex has the one edge (v, v). Each algorithm is a method with the
 * loop of the C code, proved against a specification function, and the
 * lemmas below state what the specification promises.
 */
module PolygonAlgos {
  import opened Geo

  // ---------------------------------------------------------------------
  // Edges
  // ---------------------------------------------------------------------

  /**
   * The second endpoint of edge i, the vertex at index (i + 1) mod n: the
   * next vertex, wrapping from the last back to the first.
   */
  function Next(loop: seq<LatLng>, i: nat): (b: LatLng)
    requires i < |loop|
    ensures i + 1 < |loop| ==> b == loop[i + 1]
    ensures i + 1 == |loop| ==> b == loop[0]
  {
    if i + 1 < |loop| then loop[i + 1] else loop[0]
  }

  /** Next is the vertex the C loops index as (i + 1) % n. */
  lemma NextIsModular(loop: seq<LatLng>, i: nat)
    requires i < |loop|
    ensures Next(loop, i) == loop[(i + 1) % |loop|]
  {
  }

  // ---------------------------------------------------------------------
  // pointInside: parity ray casting with tie-break nudges
  // ---------------------------------------------------------------------

  /** The scan state of pointInside: the (possibly nudged) query and the parity flag. */
  datatype RayState = RayState(lat: real, lng: real, contains: bool)

  /** The edge's endpoints with the southern one first. */
  function SouthFirst(a: LatLng, b: LatLng): (e: (LatLng, LatLng))
    ensures e.0.lat <= e.1.lat
    ensures e == (a, b) || e == (b, a)
  {
    if a.lat > b.lat then (b, a) else (a, b)
  }

  /** A query latitude equal to an endpoint's latitude is moved north by DBL_EPSILON, in binary64. */
  function NudgeLat(lat: real, a: LatLng, b: LatLng): real {
    if lat == a.lat || lat == b.lat then PlusEps(lat) else lat
  }

  /**
   * A query longitude equal to an endpoint's normalised longitude is moved
   * west by DBL_EPSILON, in binary64: from magnitude 2 on the step can round
   * away, so the tie is then not broken.
   */
  function NudgeLng(lng: real, aLng: real, bLng: real): real {
    if aLng == lng || bLng == lng then MinusEps(lng) else lng
  }

  /** The (normalised) longitude at which edge (a, b), a strictly south of b, reaches latitude lat. */
  function CrossingLng(a: LatLng, b: LatLng, lat: real, tm: bool): real
    requires a.lat < b.lat
  {
    var aLng := NormalizeLng(a.lng, tm);
    var bLng := NormalizeLng(b.lng, tm);
    NormalizeLng(aLng + (bLng - aLng) * ((lat - a.lat) / (b.lat - a.lat)), tm)
  }

  /**
   * One iteration of the pointInside loop over edge (a0, b0): the latitude
   * nudge, then, when the query latitude lies within the edge's span, the
   * longitude nudge and the parity flip of a hit.
   */
  function RayStep(s: RayState, a0: LatLng, b0: LatLng, tm: bool): RayState {
    var (a, b) := SouthFirst(a0, b0);
    var lat := NudgeLat(s.lat, a, b);
    var lng := if a.lat <= lat <= b.lat then NudgeLng(s.lng, NormalizeLng(a.lng, tm), NormalizeLng(b.lng, tm)) else s.lng;
    RayState(lat, lng, s.contains != RayHitsEdge(s, a0, b0, tm))
  }

  /** The scan state after the first k edges. */
  function RayScan(loop: seq<LatLng>, tm: bool, init: RayState, k: nat): RayState
    requires k <= |loop|
  {
    if k == 0 then init
    else RayStep(RayScan(loop, tm, init, k - 1), loop[k - 1], Next(loop, k - 1), tm)
  }

  /** The query as pointInside starts from it: longitude normalised in the box's frame, parity false. */
  function RayStart(bbox: BBox, coord: LatLng): RayState {
    RayState(coord.lat, NormalizeLng(coord.lng, BBoxIsTransmeridian(bbox)), false)
  }

  /** What pointInside answers for this loop, box and point. */
  predicate LoopContains(loop: seq<LatLng>, bbox: BBox, coord: LatLng) {
    BBoxContains(bbox, coord) &&
    RayScan(loop, BBoxIsTransmeridian(bbox), RayStart(bbox, coord), |loop|).contains
  }

  method PointInside(loop: seq<LatLng>, bbox: BBox, coord: LatLng) returns (contains: bool)
    ensures contains == LoopContains(loop, bbox, coord)
    ensures !BBoxContains(bbox, coord) ==> !contains
    ensures |loop| == 0 ==> !contains
  {
    if !BBoxContains(bbox, coord) {
      return false;
    }
    var isTransmeridian := BBoxIsTransmeridian(bbox);
    contains := false;
    var lat := coord.lat;
    var lng := NormalizeLng(coord.lng, isTransmeridian);
    var i := 0;
    while i < |loop|
      invariant 0 <= i <= |loop|
      invariant RayScan(loop, isTransmeridian, RayStart(bbox, coord), i) == RayState(lat, lng, contains)
    {
      ghost var s := RayState(lat, lng, contains);
      var a, b := loop[i], Next(loop, i);
      ghost var a0, b0 := a, b;
      i := i + 1;
      if a.lat > b.lat {
        a, b := b, a;
      }
      if lat == a.lat || lat == b.lat {
        lat := PlusEps(lat);
      }
      if lat < a.lat || lat > b.lat {
        RayStepSkips(s, a0, b0, isTransmeridian, a, b, lat);
        continue;
      }
      var aLng := NormalizeLng(a.lng, isTransmeridian);
      var bLng := NormalizeLng(b.lng, isTransmeridian);
      if aLng == lng || bLng == lng {
        lng := MinusEps(lng);
      }
      RayStepTests(s, a0, b0, isTransmeridian, a, b, lat, lng);
      // A flat edge is tested only when the latitude nudge rounded away; its
      // ratio is then 0/0, a NaN, and the comparison with it is false.
      if a.lat < b.lat {
        var testLng := CrossingLng(a, b, lat, isTransmeridian);
        if testLng > lng {
          contains := !contains;
        }
      }
    }
  }

  /** An edge whose latitude span misses the (nudged) query latitude leaves the parity and longitude alone. */
  lemma RayStepSkips(s: RayState, a0: LatLng, b0: LatLng, tm: bool, a: LatLng, b: LatLng, lat: real)
    requires (a, b) == SouthFirst(a0, b0) && lat == NudgeLat(s.lat, a, b)
    requires lat < a.lat || lat > b.lat
    ensures RayStep(s, a0, b0, tm) == RayState(lat, s.lng, s.contains)
  {
  }

  /** An edge whose latitude span holds the query latitude nudges the longitude and flips on a crossing east of it (never when flat). */
  lemma RayStepTests(s: RayState, a0: LatLng, b0: LatLng, tm: bool, a: LatLng, b: LatLng, lat: real, lng: real)
    requires (a, b) == SouthFirst(a0, b0) && lat == NudgeLat(s.lat, a, b)
    requires a.lat <= lat <= b.lat
    requires lng == NudgeLng(s.lng, NormalizeLng(a.lng, tm), NormalizeLng(b.lng, tm))
    ensures RayStep(s, a0, b0, tm) == RayState(lat, lng, s.contains != (a.lat < b.lat && CrossingLng(a, b, lat, tm) > lng))
  {
  }

  /** Edge (a0, b0) flips the parity: it passes the latitude-range test and meets the query's latitude east of it. */
  predicate RayHitsEdge(s: RayState, a0: LatLng, b0: LatLng, tm: bool) {
    var (a, b) := SouthFirst(a0, b0);
    var lat := NudgeLat(s.lat, a, b);
    a.lat <= lat <= b.lat && a.lat < b.lat &&
    CrossingLng(a, b, lat, tm) > NudgeLng(s.lng, NormalizeLng(a.lng, tm), NormalizeLng(b.lng, tm))
  }

  /** How many of the first k edges flip the parity. */
  function RayHits(loop: seq<LatLng>, tm: bool, init: RayState, k: nat): nat
    requires k <= |loop|
  {
    if k == 0 then 0
    else
      var s := RayScan(loop, tm, init, k - 1);
      RayHits(loop, tm, init, k - 1) + if RayHitsEdge(s, loop[k - 1], Next(loop, k - 1), tm) then 1 else 0
  }

  /** How many of the first k edges had an endpoint at the query's latitude. */
  function LatTies(loop: seq<LatLng>, tm: bool, init: RayState, k: nat): nat
    requires k <= |loop|
  {
    if k == 0 then 0
    else
      var s := RayScan(loop, tm, init, k - 1);
      var tie := s.lat == loop[k - 1].lat || s.lat == Next(loop, k - 1).lat;
      LatTies(loop, tm, init, k - 1) + if tie then 1 else 0
  }

  /** How many of the first k edges passed the latitude-range test with an endpoint at the query's longitude. */
  function LngTies(loop: seq<LatLng>, tm: bool, init: RayState, k: nat): nat
    requires k <= |loop|
  {
    if k == 0 then 0
    else
      var s := RayScan(loop, tm, init, k - 1);
      var (a, b) := SouthFirst(loop[k - 1], Next(loop, k - 1));
      var lat := NudgeLat(s.lat, a, b);
      var tie := a.lat <= lat <= b.lat && (NormalizeLng(a.lng, tm) == s.lng || NormalizeLng(b.lng, tm) == s.lng);
      LngTies(loop, tm, init, k - 1) + if tie then 1 else 0
  }

  /** Proof helper for RayParity: one more hit flips the parity. */
  lemma OddSuccessor(n: nat)
    ensures ((n + 1) % 2 == 1) == (n % 2 != 1)
  {
  }

  /** The parity flag after k edges is the parity of the number of edges that flipped it. */
  lemma {:induction false} RayParity(loop: seq<LatLng>, tm: bool, init: RayState, k: nat)
    requires k <= |loop|
    ensures RayScan(loop, tm, init, k).contains == (init.contains != (RayHits(loop, tm, init, k) % 2 == 1))
  {
    if k > 0 {
      RayParity(loop, tm, init, k - 1);
      OddSuccessor(RayHits(loop, tm, init, k - 1));
    }
  }

  /** pointInside is the bounding-box test and an odd count of edges crossed east of the query. */
  lemma LoopContainsIsOddCrossings(loop: seq<LatLng>, bbox: BBox, coord: LatLng)
    ensures LoopContains(loop, bbox, coord) <==>
      BBoxContains(bbox, coord) &&
      RayHits(loop, BBoxIsTransmeridian(bbox), RayStart(bbox, coord), |loop|) % 2 == 1
  {
    RayParity(loop, BBoxIsTransmeridian(bbox), RayStart(bbox, coord), |loop|);
  }

  /**
   * The query moves only at ties, never back: north by at most 2 EPS per
   * latitude tie, west by at most 2 EPS per longitude tie (a rounded step
   * may also be nothing at all).
   */
  lemma {:induction false} RayNudges(loop: seq<LatLng>, tm: bool, init: RayState, k: nat)
    requires k <= |loop|
    ensures init.lat <= RayScan(loop, tm, init, k).lat <= init.lat + 2.0 * EPS * (LatTies(loop, tm, init, k) as real)
    ensures init.lng - 2.0 * EPS * (LngTies(loop, tm, init, k) as real) <= RayScan(loop, tm, init, k).lng <= init.lng
  {
    if k > 0 {
      RayNudges(loop, tm, init, k - 1);
    }
  }

  /** Along the scan the query latitude never decreases and the query longitude never increases. */
  lemma {:induction false} RayMonotone(loop: seq<LatLng>, tm: bool, init: RayState, j: nat, k: nat)
    requires j <= k <= |loop|
    ensures RayScan(loop, tm, init, j).lat <= RayScan(loop, tm, init, k).lat
    ensures RayScan(loop, tm, init, k).lng <= RayScan(loop, tm, init, j).lng
  {
    if j < k {
      RayMonotone(loop, tm, init, j, k - 1);
    }
  }

  /**
   * A query at or north of every vertex keeps its parity: its latitude ties
   * at most once, the nudge then lifts it strictly north of every vertex,
   * and no edge's latitude span holds it afterwards.
   */
  lemma {:induction false} NorthOfEveryVertex(loop: seq<LatLng>, tm: bool, init: RayState, k: nat)
    requires k <= |loop|
    requires -PI / 2.0 <= init.lat <= PI / 2.0
    requires forall i :: 0 <= i < |loop| ==> loop[i].lat <= init.lat
    ensures RayScan(loop, tm, init, k).contains == init.contains
    ensures RayScan(loop, tm, init, k).lat == init.lat ||
      forall i :: 0 <= i < |loop| ==> loop[i].lat < RayScan(loop, tm, init, k).lat
  {
    if k > 0 {
      NorthOfEveryVertex(loop, tm, init, k - 1);
      var s := RayScan(loop, tm, init, k - 1);
      var (a, b) := SouthFirst(loop[k - 1], Next(loop, k - 1));
      assert a.lat <= init.lat && b.lat <= init.lat;
      if s.lat == init.lat && (s.lat == a.lat || s.lat == b.lat) {
        assert PlusEps(s.lat) > s.lat;
      }
    }
  }

  /**
   * pointInside answers false for a query at or north of every vertex of
   * the loop; a query at the north pole is therefore in no loop at all.
   */
  lemma NorthOfEveryVertexNotContained(loop: seq<LatLng>, bbox: BBox, coord: LatLng)
    requires -PI / 2.0 <= coord.lat <= PI / 2.0
    requires forall i :: 0 <= i < |loop| ==> loop[i].lat <= coord.lat
    ensures !LoopContains(loop, bbox, coord)
  {
    NorthOfEveryVertex(loop, BBoxIsTransmeridian(bbox), RayStart(bbox, coord), |loop|);
  }

  // ---------------------------------------------------------------------
  // bboxFrom: extrema of the vertices, east/west swapped for transmeridian loops
  // ---------------------------------------------------------------------

  function Lats(loop: seq<LatLng>): (xs: seq<real>)
    ensures |xs| == |loop|
    ensures forall i :: 0 <= i < |loop| ==> xs[i] == loop[i].lat
  {
    seq(|loop|, i requires 0 <= i < |loop| => loop[i].lat)
  }

  function Lngs(loop: seq<LatLng>): (xs: seq<real>)
    ensures |xs| == |loop|
    ensures forall i :: 0 <= i < |loop| ==> xs[i] == loop[i].lng
  {
    seq(|loop|, i requires 0 <= i < |loop| => loop[i].lng)
  }

  /** Running minimum of the first k values from init, replacing it only by a strictly smaller value. */
  function MinFrom(xs: seq<real>, k: nat, init: real): real
    requires k <= |xs|
  {
    if k == 0 then init
    else
      var m := MinFrom(xs, k - 1, init);
      if xs[k - 1] < m then xs[k - 1] else m
  }

  /** Running maximum of the first k values from init, replacing it only by a strictly larger value. */
  function MaxFrom(xs: seq<real>, k: nat, init: real): real
    requires k <= |xs|
  {
    if k == 0 then init
    else
      var m := MaxFrom(xs, k - 1, init);
      if xs[k - 1] > m then xs[k - 1] else m
  }

  /** Running minimum of the positive values among the first k, from init. */
  function MinPositiveFrom(xs: seq<real>, k: nat, init: real): real
    requires k <= |xs|
  {
    if k == 0 then init
    else
      var m := MinPositiveFrom(xs, k - 1, init);
      if xs[k - 1] > 0.0 && xs[k - 1] < m then xs[k - 1] else m
  }

  /** Running maximum of the negative values among the first k, from init. */
  function MaxNegativeFrom(xs: seq<real>, k: nat, init: real): real
    requires k <= |xs|
  {
    if k == 0 then init
    else
      var m := MaxNegativeFrom(xs, k - 1, init);
      if xs[k - 1] < 0.0 && xs[k - 1] > m then xs[k - 1] else m
  }

  /** Edge i spans more than half a turn of longitude, so it is taken to cross the antimeridian. */
  predicate WideEdge(loop: seq<LatLng>, i: nat)
    requires i < |loop|
  {
    Abs(loop[i].lng - Next(loop, i).lng) > PI
  }

  predicate NoWideEdgeBefore(loop: seq<LatLng>, k: nat)
    requires k <= |loop|
  {
    forall j :: 0 <= j < k ==> !WideEdge(loop, j)
  }

  predicate HasWideEdge(loop: seq<LatLng>) {
    exists i :: 0 <= i < |loop| && WideEdge(loop, i)
  }

  lemma WideEdgeSomewhere(loop: seq<LatLng>)
    ensures HasWideEdge(loop) == !NoWideEdgeBefore(loop, |loop|)
  {
  }

  /** The box bboxFrom writes for a loop. */
  function BBoxOf(loop: seq<LatLng>): BBox {
    if |loop| == 0 then BBox(0.0, 0.0, 0.0, 0.0)
    else
      var lats, lngs := Lats(loop), Lngs(loop);
      if HasWideEdge(loop) then
        BBox(MaxFrom(lats, |loop|, -DBL_MAX), MinFrom(lats, |loop|, DBL_MAX),
             MaxNegativeFrom(lngs, |loop|, -DBL_MAX), MinPositiveFrom(lngs, |loop|, DBL_MAX))
      else
        BBox(MaxFrom(lats, |loop|, -DBL_MAX), MinFrom(lats, |loop|, DBL_MAX),
             MaxFrom(lngs, |loop|, -DBL_MAX), MinFrom(lngs, |loop|, DBL_MAX))
  }

  method BBoxFrom(loop: seq<LatLng>) returns (bbox: BBox)
    ensures bbox == BBoxOf(loop)
  {
    if |loop| == 0 {
      return BBox(0.0, 0.0, 0.0, 0.0);
    }
    var north, south, east, west := -DBL_MAX, DBL_MAX, -DBL_MAX, DBL_MAX;
    var minPosLng := DBL_MAX;
    var maxNegLng := -DBL_MAX;
    var isTransmeridian := false;
    var i := 0;
    while i < |loop|
      invariant 0 <= i <= |loop|
      invariant south == MinFrom(Lats(loop), i, DBL_MAX)
      invariant north == MaxFrom(Lats(loop), i, -DBL_MAX)
      invariant west == MinFrom(Lngs(loop), i, DBL_MAX)
      invariant east == MaxFrom(Lngs(loop), i, -DBL_MAX)
      invariant minPosLng == MinPositiveFrom(Lngs(loop), i, DBL_MAX)
      invariant maxNegLng == MaxNegativeFrom(Lngs(loop), i, -DBL_MAX)
      invariant isTransmeridian == !NoWideEdgeBefore(loop, i)
    {
      var coord, next := loop[i], Next(loop, i);
      var lat, lng := coord.lat, coord.lng;
      if lat < south { south := lat; }
      if lng < west { west := lng; }
      if lat > north { north := lat; }
      if lng > east { east := lng; }
      if lng > 0.0 && lng < minPosLng { minPosLng := lng; }
      if lng < 0.0 && lng > maxNegLng { maxNegLng := lng; }
      if Abs(lng - next.lng) > PI {
        assert WideEdge(loop, i);
        isTransmeridian := true;
      }
      i := i + 1;
    }
    WideEdgeSomewhere(loop);
    bbox := BBox(north, south, east, west);
    if isTransmeridian {
      bbox := bbox.(east := maxNegLng, west := minPosLng);
    }
  }


  lemma {:induction false} MinFromIsLeast(xs: seq<real>, k: nat, init: real)
    requires k <= |xs|
    ensures MinFrom(xs, k, init) <= init
    ensures forall i :: 0 <= i < k ==> MinFrom(xs, k, init) <= xs[i]
    ensures MinFrom(xs, k, init) == init || exists i :: 0 <= i < k && MinFrom(xs, k, init) == xs[i]
  {
    if k > 0 {
      MinFromIsLeast(xs, k - 1, init);
    }
  }

  lemma {:induction false} MaxFromIsGreatest(xs: seq<real>, k: nat, init: real)
    requires k <= |xs|
    ensures MaxFrom(xs, k, init) >= init
    ensures forall i :: 0 <= i < k ==> MaxFrom(xs, k, init) >= xs[i]
    ensures MaxFrom(xs, k, init) == init || exists i :: 0 <= i < k && MaxFrom(xs, k, init) == xs[i]
  {
    if k > 0 {
      MaxFromIsGreatest(xs, k - 1, init);
    }
  }

  lemma {:induction false} MinPositiveFromIsLeastPositive(xs: seq<real>, k: nat, init: real)
    requires k <= |xs|
    ensures MinPositiveFrom(xs, k, init) <= init
    ensures forall i :: 0 <= i < k && xs[i] > 0.0 ==> MinPositiveFrom(xs, k, init) <= xs[i]
    ensures MinPositiveFrom(xs, k, init) == init ||
      exists i :: 0 <= i < k && xs[i] > 0.0 && MinPositiveFrom(xs, k, init) == xs[i]
  {
    if k > 0 {
      MinPositiveFromIsLeastPositive(xs, k - 1, init);
    }
  }

  lemma {:induction false} MaxNegativeFromIsGreatestNegative(xs: seq<real>, k: nat, init: real)
    requires k <= |xs|
    ensures MaxNegativeFrom(xs, k, init) >= init
    ensures forall i :: 0 <= i < k && xs[i] < 0.0 ==> MaxNegativeFrom(xs, k, init) >= xs[i]
    ensures MaxNegativeFrom(xs, k, init) == init ||
      exists i :: 0 <= i < k && xs[i] < 0.0 && MaxNegativeFrom(xs, k, init) == xs[i]
  {
    if k > 0 {
      MaxNegativeFromIsGreatestNegative(xs, k - 1, init);
    }
  }

  /** A loop of finite vertices. */
  predicate FiniteLoop(loop: seq<LatLng>) {
    forall i :: 0 <= i < |loop| ==> Finite(loop[i])
  }

  /** South and north are the least and greatest latitude, each that of some vertex. */
  lemma BBoxOfLatitudes(loop: seq<LatLng>)
    requires |loop| > 0 && FiniteLoop(loop)
    ensures forall i :: 0 <= i < |loop| ==> BBoxOf(loop).south <= loop[i].lat <= BBoxOf(loop).north
    ensures exists i :: 0 <= i < |loop| && loop[i].lat == BBoxOf(loop).south
    ensures exists i :: 0 <= i < |loop| && loop[i].lat == BBoxOf(loop).north
  {
    MinFromIsLeast(Lats(loop), |loop|, DBL_MAX);
    MaxFromIsGreatest(Lats(loop), |loop|, -DBL_MAX);
    assert Finite(loop[0]);
  }

  /** Without a wide edge, west and east are the least and greatest longitude, each that of some vertex. */
  lemma BBoxOfLongitudes(loop: seq<LatLng>)
    requires |loop| > 0 && FiniteLoop(loop) && !HasWideEdge(loop)
    ensures forall i :: 0 <= i < |loop| ==> BBoxOf(loop).west <= loop[i].lng <= BBoxOf(loop).east
    ensures exists i :: 0 <= i < |loop| && loop[i].lng == BBoxOf(loop).west
    ensures exists i :: 0 <= i < |loop| && loop[i].lng == BBoxOf(loop).east
  {
    MinFromIsLeast(Lngs(loop), |loop|, DBL_MAX);
    MaxFromIsGreatest(Lngs(loop), |loop|, -DBL_MAX);
    assert Finite(loop[0]);
  }

  /**
   * With a wide edge, east is the greatest negative longitude and west the
   * least positive one (the DBL_MAX sentinels when there is none).
   */
  lemma BBoxOfTransmeridianLongitudes(loop: seq<LatLng>)
    requires |loop| > 0 && FiniteLoop(loop) && HasWideEdge(loop)
    ensures BBoxOf(loop).east < 0.0 < BBoxOf(loop).west
    ensures forall i :: 0 <= i < |loop| && loop[i].lng < 0.0 ==> loop[i].lng <= BBoxOf(loop).east
    ensures forall i :: 0 <= i < |loop| && loop[i].lng > 0.0 ==> BBoxOf(loop).west <= loop[i].lng
    ensures (exists i :: 0 <= i < |loop| && loop[i].lng < 0.0) ==>
      exists i :: 0 <= i < |loop| && loop[i].lng == BBoxOf(loop).east
    ensures (forall i :: 0 <= i < |loop| ==> loop[i].lng >= 0.0) ==> BBoxOf(loop).east == -DBL_MAX
    ensures (exists i :: 0 <= i < |loop| && loop[i].lng > 0.0) ==>
      exists i :: 0 <= i < |loop| && loop[i].lng == BBoxOf(loop).west
    ensures (forall i :: 0 <= i < |loop| ==> loop[i].lng <= 0.0) ==> BBoxOf(loop).west == DBL_MAX
  {
    var lngs := Lngs(loop);
    MinPositiveFromIsLeastPositive(lngs, |loop|, DBL_MAX);
    MaxNegativeFromIsGreatestNegative(lngs, |loop|, -DBL_MAX);
    if exists i :: 0 <= i < |loop| && loop[i].lng < 0.0 {
      var i :| 0 <= i < |loop| && loop[i].lng < 0.0;
      assert Finite(loop[i]);
    }
    if exists i :: 0 <= i < |loop| && loop[i].lng > 0.0 {
      var i :| 0 <= i < |loop| && loop[i].lng > 0.0;
      assert Finite(loop[i]);
    }
  }

  /** The box of a non-empty loop wraps the antimeridian exactly when some edge is wider than half a turn. */
  lemma BBoxOfTransmeridianIffWideEdge(loop: seq<LatLng>)
    requires |loop| > 0
    ensures BBoxIsTransmeridian(BBoxOf(loop)) <==> HasWideEdge(loop)
  {
    var lngs := Lngs(loop);
    if HasWideEdge(loop) {
      MinPositiveFromIsLeastPositive(lngs, |loop|, DBL_MAX);
      MaxNegativeFromIsGreatestNegative(lngs, |loop|, -DBL_MAX);
    } else {
      MinFromIsLeast(lngs, |loop|, DBL_MAX);
      MaxFromIsGreatest(lngs, |loop|, -DBL_MAX);
      assert BBoxOf(loop).west <= lngs[0] <= BBoxOf(loop).east;
    }
  }

  // ---------------------------------------------------------------------
  // isClockwise: sign of the shoelace sum, restarted once in transmeridian mode
  // ---------------------------------------------------------------------

  /** One edge's term of the shoelace sum. */
  function ShoelaceTerm(a: LatLng, b: LatLng, tm: bool): real {
    (NormalizeLng(b.lng, tm) - NormalizeLng(a.lng, tm)) * (b.lat + a.lat)
  }

  function EdgeTerms(loop: seq<LatLng>, tm: bool): (ts: seq<real>)
    ensures |ts| == |loop|
    ensures forall i {:trigger ts[i]} :: 0 <= i < |loop| ==> ts[i] == ShoelaceTerm(loop[i], Next(loop, i), tm)
  {
    seq(|loop|, i requires 0 <= i < |loop| => ShoelaceTerm(loop[i], Next(loop, i), tm))
  }

  function Sum(xs: seq<real>): real {
    if |xs| == 0 then 0.0 else Sum(xs[..|xs| - 1]) + xs[|xs| - 1]
  }

  /** The shoelace sum over all edges, longitudes normalised when tm holds. */
  function ShoelaceSum(loop: seq<LatLng>, tm: bool): real {
    Sum(EdgeTerms(loop, tm))
  }

  /** What isClockwise answers: the sum, normalised exactly when the loop has a wide edge, is positive. */
  predicate Clockwise(loop: seq<LatLng>) {
    ShoelaceSum(loop, HasWideEdge(loop)) > 0.0
  }

  /** The shoelace sum over the first i + 1 edges adds edge i's term to that over the first i. */
  lemma ShoelacePrefixStep(loop: seq<LatLng>, tm: bool, i: nat)
    requires i < |loop|
    ensures Sum(EdgeTerms(loop, tm)[..i + 1]) == Sum(EdgeTerms(loop, tm)[..i]) + ShoelaceTerm(loop[i], Next(loop, i), tm)
  {
    assert EdgeTerms(loop, tm)[..i + 1][..i] == EdgeTerms(loop, tm)[..i];
  }

  lemma ShoelaceWhole(loop: seq<LatLng>, tm: bool)
    ensures Sum(EdgeTerms(loop, tm)[..|loop|]) == ShoelaceSum(loop, tm)
  {
    assert EdgeTerms(loop, tm)[..|loop|] == EdgeTerms(loop, tm);
  }

  lemma WideEdgeWitness(loop: seq<LatLng>, i: nat)
    requires i < |loop| && Abs(loop[i].lng - Next(loop, i).lng) > PI
    ensures HasWideEdge(loop)
  {
    assert WideEdge(loop, i);
  }

  lemma NoWideEdgeStep(loop: seq<LatLng>, i: nat)
    requires i < |loop| && NoWideEdgeBefore(loop, i) && Abs(loop[i].lng - Next(loop, i).lng) <= PI
    ensures NoWideEdgeBefore(loop, i + 1)
  {
  }


  method IsClockwiseNormalized(loop: seq<LatLng>, isTransmeridian: bool) returns (clockwise: bool)
    ensures clockwise == (ShoelaceSum(loop, isTransmeridian || HasWideEdge(loop)) > 0.0)
    decreases if isTransmeridian then 0 else 1
  {
    var sum := 0.0;
    var i := 0;
    while i < |loop|
      invariant 0 <= i <= |loop|
      invariant sum == Sum(EdgeTerms(loop, isTransmeridian)[..i])
      invariant !isTransmeridian ==> NoWideEdgeBefore(loop, i)
    {
      var a, b := loop[i], Next(loop, i);
      if !isTransmeridian && Abs(a.lng - b.lng) > PI {
        WideEdgeWitness(loop, i);
        clockwise := IsClockwiseNormalized(loop, true);
        return;
      }
      if !isTransmeridian {
        NoWideEdgeStep(loop, i);
      }
      ShoelacePrefixStep(loop, isTransmeridian, i);
      sum := sum + ShoelaceTerm(a, b, isTransmeridian);
      i := i + 1;
    }
    ShoelaceWhole(loop, isTransmeridian);
    WideEdgeSomewhere(loop);
    clockwise := sum > 0.0;
  }

  method IsClockwise(loop: seq<LatLng>) returns (clockwise: bool)
    ensures clockwise == Clockwise(loop)
  {
    clockwise := IsClockwiseNormalized(loop, false);
  }

  /** The loop traversed in the opposite direction. */
  function Reverse(loop: seq<LatLng>): (r: seq<LatLng>)
    ensures |r| == |loop|
    ensures forall i {:trigger r[i]} :: 0 <= i < |loop| ==> r[i] == loop[|loop| - 1 - i]
  {
    seq(|loop|, i requires 0 <= i < |loop| => loop[|loop| - 1 - i])
  }

  function NegatedReverse(xs: seq<real>): (ys: seq<real>)
    ensures |ys| == |xs|
    ensures forall i {:trigger ys[i]} :: 0 <= i < |xs| ==> ys[i] == -xs[|xs| - 1 - i]
  {
    seq(|xs|, i requires 0 <= i < |xs| => -xs[|xs| - 1 - i])
  }

  lemma {:induction false} SumPrepend(x: real, xs: seq<real>)
    ensures Sum([x] + xs) == x + Sum(xs)
  {
    if |xs| > 0 {
      assert ([x] + xs)[..|xs|] == [x] + xs[..|xs| - 1];
      SumPrepend(x, xs[..|xs| - 1]);
    }
  }

  lemma {:induction false} SumNegatedReverse(xs: seq<real>)
    ensures Sum(NegatedReverse(xs)) == -Sum(xs)
  {
    if |xs| > 0 {
      var ys := xs[..|xs| - 1];
      assert NegatedReverse(xs) == [-xs[|xs| - 1]] + NegatedReverse(ys);
      SumNegatedReverse(ys);
      SumPrepend(-xs[|xs| - 1], NegatedReverse(ys));
    }
  }

  lemma ShoelaceTermAntisymmetric(a: LatLng, b: LatLng, tm: bool)
    ensures ShoelaceTerm(b, a, tm) == -ShoelaceTerm(a, b, tm)
  {
  }

  /** Edge i of the reversed loop is edge n-2-i of the original, traversed backwards. */
  lemma ReverseEdgeTerm(loop: seq<LatLng>, tm: bool, i: nat)
    requires i + 1 < |loop|
    ensures EdgeTerms(Reverse(loop), tm)[i] == -EdgeTerms(loop, tm)[|loop| - 2 - i]
  {
    var n := |loop|;
    var rev := Reverse(loop);
    var a, b := loop[n - 2 - i], loop[n - 1 - i];
    assert rev[i] == b && rev[i + 1] == a;
    assert Next(rev, i) == a && Next(loop, n - 2 - i) == b;
    assert EdgeTerms(rev, tm)[i] == ShoelaceTerm(b, a, tm);
    assert EdgeTerms(loop, tm)[n - 2 - i] == ShoelaceTerm(a, b, tm);
    ShoelaceTermAntisymmetric(a, b, tm);
  }

  lemma ReverseEdgeTerms(loop: seq<LatLng>, tm: bool)
    ensures forall i :: 0 <= i < |loop| - 1 ==> EdgeTerms(Reverse(loop), tm)[i] == -EdgeTerms(loop, tm)[|loop| - 2 - i]
  {
    forall i | 0 <= i < |loop| - 1
      ensures EdgeTerms(Reverse(loop), tm)[i] == -EdgeTerms(loop, tm)[|loop| - 2 - i]
    {
      ReverseEdgeTerm(loop, tm, i);
    }
  }

  /** The closing edge of the reversed loop is the original's closing edge, traversed backwards. */
  lemma ReverseClosingTerm(loop: seq<LatLng>, tm: bool)
    requires |loop| > 0
    ensures EdgeTerms(Reverse(loop), tm)[|loop| - 1] == -EdgeTerms(loop, tm)[|loop| - 1]
  {
    var n := |loop|;
    var rev := Reverse(loop);
    assert rev[n - 1] == loop[0] && Next(rev, n - 1) == loop[n - 1];
    assert Next(loop, n - 1) == loop[0];
    ShoelaceTermAntisymmetric(loop[n - 1], loop[0], tm);
  }

  /** A sequence whose prefix mirrors another's prefix, negated, and whose last elements are negated, has the negated sum. */
  lemma SumOfMirror(u: seq<real>, t: seq<real>)
    requires |u| == |t| > 0
    requires forall i :: 0 <= i < |t| - 1 ==> u[i] == -t[|t| - 2 - i]
    requires u[|t| - 1] == -t[|t| - 1]
    ensures Sum(u) == -Sum(t)
  {
    var n := |t|;
    var front, mirrored := u[..n - 1], NegatedReverse(t[..n - 1]);
    assert front == mirrored;
    SumNegatedReverse(t[..n - 1]);
    assert u[..n] == u && t[..n] == t;
  }

  /** Traversing a loop backwards negates its shoelace sum, in either longitude frame. */
  lemma ReverseNegatesShoelaceSum(loop: seq<LatLng>, tm: bool)
    requires |loop| > 0
    ensures ShoelaceSum(Reverse(loop), tm) == -ShoelaceSum(loop, tm)
  {
    ReverseEdgeTerms(loop, tm);
    ReverseClosingTerm(loop, tm);
    SumOfMirror(EdgeTerms(Reverse(loop), tm), EdgeTerms(loop, tm));
  }

  /** A loop and its reverse have the same wide edges, traversed the other way. */
  lemma ReversePreservesWideEdges(loop: seq<LatLng>)
    ensures HasWideEdge(Reverse(loop)) <==> HasWideEdge(loop)
  {
    var n := |loop|;
    var rev := Reverse(loop);
    if HasWideEdge(loop) {
      var j :| 0 <= j < n && WideEdge(loop, j);
      var i := if j == n - 1 then n - 1 else n - 2 - j;
      assert WideEdge(rev, i);
    }
    if HasWideEdge(rev) {
      var i :| 0 <= i < n && WideEdge(rev, i);
      var j := if i == n - 1 then n - 1 else n - 2 - i;
      assert WideEdge(loop, j);
    }
  }

  /**
   * Reversing a loop reverses its winding order: the reverse is clockwise
   * exactly when the original's sum is negative, so for any loop of non-zero
   * signed area exactly one of the two is clockwise.
   */
  lemma ReverseFlipsClockwise(loop: seq<LatLng>)
    requires |loop| > 0
    ensures Clockwise(Reverse(loop)) <==> ShoelaceSum(loop, HasWideEdge(loop)) < 0.0
    ensures ShoelaceSum(loop, HasWideEdge(loop)) != 0.0 ==> (Clockwise(Reverse(loop)) <==> !Clockwise(loop))
  {
    ReversePreservesWideEdges(loop);
    ReverseNegatesShoelaceSum(loop, HasWideEdge(loop));
  }

  // ---------------------------------------------------------------------
  // segmentIntersects
  // ---------------------------------------------------------------------

  /** Both endpoints lie strictly beyond the same side of the loop's box. */
  predicate BeyondSameSide(bbox: BBox, p0: LatLng, p1: LatLng) {
    (p0.lat > bbox.north && p1.lat > bbox.north) ||
    (p0.lng > bbox.east && p1.lng > bbox.east) ||
    (p0.lat < bbox.south && p1.lat < bbox.south) ||
    (p0.lng < bbox.west && p1.lng < bbox.west)
  }

  function Min(x: real, y: real): real { if x < y then x else y }
  function Max(x: real, y: real): real { if x > y then x else y }

  /** The planar point of a coordinate in the given longitude frame. */
  function ToVec(p: LatLng, tm: bool): Vec2d {
    Vec2d(NormalizeLng(p.lng, tm), p.lat)
  }

  /** v lies in the closed axis-aligned box spanned by p and q. */
  predicate InSpan(v: Vec2d, p: Vec2d, q: Vec2d) {
    Min(p.x, q.x) <= v.x <= Max(p.x, q.x) && Min(p.y, q.y) <= v.y <= Max(p.y, q.y)
  }

  /** The boxes spanned by segment (v0, v1) and segment (va, vb) are disjoint. */
  predicate SpansDisjoint(v0: Vec2d, v1: Vec2d, va: Vec2d, vb: Vec2d) {
    Max(v0.x, v1.x) < Min(va.x, vb.x) || Max(va.x, vb.x) < Min(v0.x, v1.x) ||
    Max(v0.y, v1.y) < Min(va.y, vb.y) || Max(va.y, vb.y) < Min(v0.y, v1.y)
  }

  /** v is collinear with (p, q) and lies within the box they span. */
  predicate CollinearTouch(p: Vec2d, q: Vec2d, v: Vec2d) {
    Orient(p, q, v) == 0 && InSpan(v, p, q)
  }

  /** Both orientations are non-zero and opposite, tested as the product -1. */
  predicate Opposite(o1: int, o2: int) {
    o1 * o2 == -1
  }

  /** A query segment together with the longitude frame it is tested in. */
  datatype Query = Query(p0: LatLng, p1: LatLng, tm: bool)

  /** The frame is transmeridian when the box is, or when the segment itself spans more than half a turn. */
  function QueryOf(bbox: BBox, p0: LatLng, p1: LatLng): Query {
    Query(p0, p1, BBoxIsTransmeridian(bbox) || Abs(p0.lng - p1.lng) > PI)
  }

  /** Edge i is skipped: its box and the segment's box are disjoint. */
  predicate Pruned(loop: seq<LatLng>, q: Query, i: nat)
    requires i < |loop|
  {
    SpansDisjoint(ToVec(q.p0, q.tm), ToVec(q.p1, q.tm), ToVec(loop[i], q.tm), ToVec(Next(loop, i), q.tm))
  }

  /** No edge before edge i was pruned: the `first` flag is still set when edge i is examined. */
  predicate NoPrunedBefore(loop: seq<LatLng>, q: Query, i: nat)
    requires i <= |loop|
  {
    forall j :: 0 <= j < i ==> !Pruned(loop, q, j)
  }

  /** p0 (only while `first` holds) or p1 coincides, within EPS, with an endpoint of edge (a, b). */
  predicate EndpointMatch(q: Query, a: LatLng, b: LatLng, first: bool) {
    (first && (AlmostEqualThreshold(q.p0, a, EPS) || AlmostEqualThreshold(q.p0, b, EPS))) ||
    AlmostEqualThreshold(q.p1, a, EPS) || AlmostEqualThreshold(q.p1, b, EPS)
  }

  /** An endpoint of one segment is collinear with the other and inside its box. */
  predicate Touches(v0: Vec2d, v1: Vec2d, va: Vec2d, vb: Vec2d) {
    CollinearTouch(v0, v1, va) || CollinearTouch(v0, v1, vb) ||
    CollinearTouch(va, vb, v0) || CollinearTouch(va, vb, v1)
  }

  /** Each segment's endpoints lie strictly on opposite sides of the other. */
  predicate ProperCrossing(v0: Vec2d, v1: Vec2d, va: Vec2d, vb: Vec2d) {
    Opposite(Orient(v0, v1, va), Orient(v0, v1, vb)) && Opposite(Orient(va, vb, v0), Orient(va, vb, v1))
  }

  /** The tests made on an unpruned edge i. */
  predicate EdgeHit(loop: seq<LatLng>, q: Query, i: nat, first: bool)
    requires i < |loop|
  {
    var v0, v1 := ToVec(q.p0, q.tm), ToVec(q.p1, q.tm);
    var va, vb := ToVec(loop[i], q.tm), ToVec(Next(loop, i), q.tm);
    EndpointMatch(q, loop[i], Next(loop, i), first) || Touches(v0, v1, va, vb) || ProperCrossing(v0, v1, va, vb)
  }

  /** Edge i is examined and one of its tests succeeds. */
  predicate EdgeReports(loop: seq<LatLng>, q: Query, i: nat)
    requires i < |loop|
  {
    !Pruned(loop, q, i) && EdgeHit(loop, q, i, NoPrunedBefore(loop, q, i))
  }

  /** What segmentIntersects answers: some edge reports a meeting. */
  predicate SegmentMeetsLoop(loop: seq<LatLng>, bbox: BBox, p0: LatLng, p1: LatLng) {
    |loop| > 0 && !BeyondSameSide(bbox, p0, p1) &&
    exists i :: 0 <= i < |loop| && EdgeReports(loop, QueryOf(bbox, p0, p1), i)
  }

  /** An edge that reports a meeting is a witness for the whole loop. */
  lemma MeetsAt(loop: seq<LatLng>, bbox: BBox, p0: LatLng, p1: LatLng, q: Query, i: nat)
    requires q == QueryOf(bbox, p0, p1) && i < |loop| && !BeyondSameSide(bbox, p0, p1)
    requires EdgeReports(loop, q, i)
    ensures SegmentMeetsLoop(loop, bbox, p0, p1)
  {
  }

  lemma MeetsByEndpoint(loop: seq<LatLng>, bbox: BBox, p0: LatLng, p1: LatLng, q: Query, i: nat)
    requires q == QueryOf(bbox, p0, p1) && i < |loop| && !BeyondSameSide(bbox, p0, p1) && !Pruned(loop, q, i)
    requires EndpointMatch(q, loop[i], Next(loop, i), NoPrunedBefore(loop, q, i))
    ensures SegmentMeetsLoop(loop, bbox, p0, p1)
  {
    MeetsAt(loop, bbox, p0, p1, q, i);
  }

  lemma MeetsByTouch(loop: seq<LatLng>, bbox: BBox, p0: LatLng, p1: LatLng, q: Query, i: nat)
    requires q == QueryOf(bbox, p0, p1) && i < |loop| && !BeyondSameSide(bbox, p0, p1) && !Pruned(loop, q, i)
    requires Touches(ToVec(p0, q.tm), ToVec(p1, q.tm), ToVec(loop[i], q.tm), ToVec(Next(loop, i), q.tm))
    ensures SegmentMeetsLoop(loop, bbox, p0, p1)
  {
    MeetsAt(loop, bbox, p0, p1, q, i);
  }

  lemma MeetsByCrossing(loop: seq<LatLng>, bbox: BBox, p0: LatLng, p1: LatLng, q: Query, i: nat)
    requires q == QueryOf(bbox, p0, p1) && i < |loop| && !BeyondSameSide(bbox, p0, p1) && !Pruned(loop, q, i)
    requires ProperCrossing(ToVec(p0, q.tm), ToVec(p1, q.tm), ToVec(loop[i], q.tm), ToVec(Next(loop, i), q.tm))
    ensures SegmentMeetsLoop(loop, bbox, p0, p1)
  {
    MeetsAt(loop, bbox, p0, p1, q, i);
  }

  /** A pruned edge reports nothing and clears `first` for every later edge. */
  lemma PrunedEdgeIsSilent(loop: seq<LatLng>, q: Query, i: nat)
    requires i < |loop| && Pruned(loop, q, i)
    ensures !EdgeReports(loop, q, i) && !NoPrunedBefore(loop, q, i + 1)
  {
  }

  lemma UnprunedEdgeKeepsFirst(loop: seq<LatLng>, q: Query, i: nat)
    requires i < |loop| && !Pruned(loop, q, i)
    ensures NoPrunedBefore(loop, q, i + 1) == NoPrunedBefore(loop, q, i)
  {
  }

  /** An unpruned edge whose tests all fail reports nothing. */
  lemma QuietEdge(loop: seq<LatLng>, q: Query, i: nat)
    requires i < |loop| && !Pruned(loop, q, i)
    requires !EndpointMatch(q, loop[i], Next(loop, i), NoPrunedBefore(loop, q, i))
    requires !Touches(ToVec(q.p0, q.tm), ToVec(q.p1, q.tm), ToVec(loop[i], q.tm), ToVec(Next(loop, i), q.tm))
    requires !ProperCrossing(ToVec(q.p0, q.tm), ToVec(q.p1, q.tm), ToVec(loop[i], q.tm), ToVec(Next(loop, i), q.tm))
    ensures !EdgeReports(loop, q, i)
  {
  }

  /**
   * No meeting is reported for an empty loop, for a segment wholly beyond one
   * side of the loop's box, or when every edge's box misses the segment's.
   */
  lemma SegmentMeetsLoopRejects(loop: seq<LatLng>, bbox: BBox, p0: LatLng, p1: LatLng)
    ensures |loop| == 0 ==> !SegmentMeetsLoop(loop, bbox, p0, p1)
    ensures BeyondSameSide(bbox, p0, p1) ==> !SegmentMeetsLoop(loop, bbox, p0, p1)
    ensures (forall i :: 0 <= i < |loop| ==> Pruned(loop, QueryOf(bbox, p0, p1), i)) ==> !SegmentMeetsLoop(loop, bbox, p0, p1)
  {
  }

  method SegmentIntersects(loop: seq<LatLng>, bbox: BBox, p0: LatLng, p1: LatLng) returns (intersects: bool)
    ensures intersects == SegmentMeetsLoop(loop, bbox, p0, p1)
  {
    if |loop| == 0 {
      return false;
    }
    if (p0.lat > bbox.north && p1.lat > bbox.north) ||
       (p0.lng > bbox.east && p1.lng > bbox.east) ||
       (p0.lat < bbox.south && p1.lat < bbox.south) ||
       (p0.lng < bbox.west && p1.lng < bbox.west) {
      return false;
    }
    var isTransmeridian := BBoxIsTransmeridian(bbox) || Abs(p0.lng - p1.lng) > PI;
    ghost var q := Query(p0, p1, isTransmeridian);
    assert q == QueryOf(bbox, p0, p1) && !BeyondSameSide(bbox, p0, p1);
    var v0, v1 := ToVec(p0, isTransmeridian), ToVec(p1, isTransmeridian);
    var oa, ob := 0, 0;
    var first, reused := true, false;
    var i := 0;
    while i < |loop|
      invariant 0 <= i <= |loop|
      invariant first == NoPrunedBefore(loop, q, i)
      invariant forall j :: 0 <= j < i ==> !EdgeReports(loop, q, j)
      // the orientation carried over from the previous edge belongs to this edge's first vertex
      invariant reused && i < |loop| ==> oa == Orient(v0, v1, ToVec(loop[i], isTransmeridian))
      invariant reused && i < |loop| ==> !CollinearTouch(v0, v1, ToVec(loop[i], isTransmeridian))
    {
      var a, b := loop[i], Next(loop, i);
      var va, vb := ToVec(a, isTransmeridian), ToVec(b, isTransmeridian);

      // edges whose box misses the segment's box are skipped
      if SpansDisjoint(v0, v1, va, vb) {
        PrunedEdgeIsSilent(loop, q, i);
        first := false;
        reused := false;
        i := i + 1;
        continue;
      }
      UnprunedEdgeKeepsFirst(loop, q, i);

      if first && (AlmostEqualThreshold(p0, a, EPS) || AlmostEqualThreshold(p0, b, EPS)) {
        MeetsByEndpoint(loop, bbox, p0, p1, q, i);
        return true;
      }
      if AlmostEqualThreshold(p1, a, EPS) || AlmostEqualThreshold(p1, b, EPS) {
        MeetsByEndpoint(loop, bbox, p0, p1, q, i);
        return true;
      }

      if !reused {
        oa := Orient(v0, v1, va);
        if oa == 0 && InSpan(va, v0, v1) {
          MeetsByTouch(loop, bbox, p0, p1, q, i);
          return true;
        }
      }
      ob := Orient(v0, v1, vb);
      if ob == 0 && InSpan(vb, v0, v1) {
        MeetsByTouch(loop, bbox, p0, p1, q, i);
        return true;
      }
      var o0 := Orient(va, vb, v0);
      if o0 == 0 && InSpan(v0, va, vb) {
        MeetsByTouch(loop, bbox, p0, p1, q, i);
        return true;
      }
      var o1 := Orient(va, vb, v1);
      if o1 == 0 && InSpan(v1, va, vb) {
        MeetsByTouch(loop, bbox, p0, p1, q, i);
        return true;
      }
      if Opposite(oa, ob) && Opposite(o0, o1) {
        MeetsByCrossing(loop, bbox, p0, p1, q, i);
        return true;
      }
      QuietEdge(loop, q, i);

      oa := ob;
      reused := true;
      i := i + 1;
    }
    return false;
  }
}
