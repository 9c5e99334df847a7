/**
 * Coordinates, bounding boxes and the small numeric helpers that the loop
 * algorithms consume. Coordinates are radians held as `real`; the floating
 * point constants of the C library are given their exact double values.
 */
module Geo {

  /** A (latitude, longitude) pair in radians. */
  datatype LatLng = LatLng(lat: real, lng: real)

  /** Field order as in the C struct: north, south, east, west. */
  datatype BBox = BBox(north: real, south: real, east: real, west: real)

  /** A planar point: x is the (normalised) longitude, y the latitude. */
  datatype Vec2d = Vec2d(x: real, y: real)

  /** DBL_EPSILON, 2^-52. */
  const EPS: real := 0.0000000000000002220446049250313080847263336181640625

  /** M_PI as a double. */
  const PI: real := 3.141592653589793115997963468544185161590576171875

  /** M_2PI cast to double, which is exactly twice the double M_PI. */
  const TWO_PI: real := 2.0 * PI

  /** DBL_MAX, the sentinel bboxFrom starts its extrema from. */
  const DBL_MAX: real := 179769313486231570814527423731704356798070567525844996598917476803157260780028538760589558632766878171540458953514382464234321326889464182768467546703537516986049910576551282076245490090389328944075868508455133942304583236903222948165808559332123348274797826204144723168738177180919299881250404026184124858368.0

  function Abs(x: real): (r: real)
    ensures r >= 0.0 && (r == x || r == -x)
  {
    if x < 0.0 then -x else x
  }

  /** Every finite double lies within [-DBL_MAX, DBL_MAX]. */
  predicate Finite(c: LatLng) {
    -DBL_MAX <= c.lat <= DBL_MAX && -DBL_MAX <= c.lng <= DBL_MAX
  }

  /**
   * NORMALIZE_LNG: in transmeridian mode a negative longitude is moved up by
   * a full turn, so that a loop straddling the antimeridian becomes contiguous.
   */
  function NormalizeLng(lng: real, isTransmeridian: bool): (r: real)
    ensures !isTransmeridian ==> r == lng
    ensures isTransmeridian && -PI < lng <= PI ==> 0.0 <= r < TWO_PI
    ensures isTransmeridian && -PI < lng <= PI ==> (lng < 0.0 <==> r > PI)
    ensures r == lng || r == lng + TWO_PI
  {
    if isTransmeridian && lng < 0.0 then lng + TWO_PI else lng
  }

  // ---------------------------------------------------------------------
  // Binary64 rounding of the EPS nudges. The rest of the model computes on
  // exact reals; the nudges cannot, because EPS is as small as the spacing
  // of doubles and a nudge can round away.
  // ---------------------------------------------------------------------

  /** The gap between adjacent doubles in the binade of m > 0: EPS on [1, 2), doubling per binade upward. */
  function Ulp(m: real): (u: real)
    requires m > 0.0
    ensures u > 0.0
    ensures m < 2.0 ==> u <= EPS
    ensures 1.0 <= m < 2.0 ==> u == EPS
    ensures 2.0 <= m < 4.0 ==> u == 2.0 * EPS
    decreases if m >= 1.0 then 0 else 1, if m >= 1.0 then m.Floor else (1.0 / m).Floor
  {
    if m >= 2.0 then
      assert (m / 2.0).Floor < m.Floor;
      2.0 * Ulp(m / 2.0)
    else if m < 1.0 / 65536.0 then
      // sixteen binades at once, to keep the descent short
      assert (1.0 / (65536.0 * m)).Floor < (1.0 / m).Floor;
      Ulp(65536.0 * m) / 65536.0
    else if m < 1.0 then
      assert 2.0 * m < 1.0 ==> (1.0 / (2.0 * m)).Floor < (1.0 / m).Floor;
      Ulp(2.0 * m) / 2.0
    else EPS
  }

  /** y rounded to the nearest multiple of u, a tie going to the even multiple. */
  function RoundToMultiple(y: real, u: real): (r: real)
    requires u > 0.0
    ensures y - u / 2.0 <= r <= y + u / 2.0
  {
    var q := y / u;
    var n := q.Floor;
    var k := if q - n as real < 0.5 || (q - n as real == 0.5 && n % 2 == 0) then n else n + 1;
    HalfGap(y, u, q, k);
    k as real * u
  }

  lemma HalfGap(y: real, u: real, q: real, k: int)
    requires u > 0.0 && q == y / u && -0.5 <= k as real - q <= 0.5
    ensures y - u / 2.0 <= k as real * u <= y + u / 2.0
  {
    var d := k as real - q;
    assert y == q * u;
    assert k as real * u - y == d * u;
    NonNegativeProduct(0.5 - d, u);
    NonNegativeProduct(d + 0.5, u);
  }

  lemma NonNegativeProduct(a: real, b: real)
    requires a >= 0.0 && b >= 0.0
    ensures a * b >= 0.0
  {
  }

  /**
   * y rounded to the nearest double, a tie going to the even significand
   * (round-to-nearest-even; overflow and subnormals are out of range here).
   */
  function RoundToNearest(y: real): (r: real)
    ensures y == 0.0 ==> r == 0.0
    ensures y != 0.0 ==> y - Ulp(Abs(y)) / 2.0 <= r <= y + Ulp(Abs(y)) / 2.0
  {
    if y == 0.0 then 0.0 else RoundToMultiple(y, Ulp(Abs(y)))
  }

  /** Below magnitude 2 EPS is a whole number of gaps. */
  lemma EpsIsWholeGaps(m: real) returns (p: nat)
    requires 0.0 < m < 2.0
    ensures WholeGaps(Ulp(m), p)
    decreases if m >= 1.0 then 0 else 1, if m >= 1.0 then m.Floor else (1.0 / m).Floor
  {
    if m >= 1.0 {
      p := 1;
    } else if m < 1.0 / 65536.0 {
      var wider := 65536.0 * m;
      ScalingDescends(m, 65536.0, wider);
      var coarse := EpsIsWholeGaps(wider);
      UlpScales(m, 65536.0, wider);
      p := FinerGaps(Ulp(m), Ulp(wider), coarse, 65536);
    } else {
      var wider := 2.0 * m;
      if wider < 1.0 {
        ScalingDescends(m, 2.0, wider);
      }
      var half := EpsIsWholeGaps(wider);
      UlpScales(m, 2.0, wider);
      p := FinerGaps(Ulp(m), Ulp(wider), half, 2);
    }
  }

  /** One step of the descent in Ulp: sixteen binades below 2^-16, one binade above. */
  lemma UlpScales(m: real, c: real, wider: real)
    requires 0.0 < m < 1.0 && wider == c * m
    requires (m < 1.0 / 65536.0 && c == 65536.0) || (m >= 1.0 / 65536.0 && c == 2.0)
    ensures Ulp(m) * c == Ulp(wider)
  {
  }

  /** Scaling m < 1 up by c >= 2 strictly lowers the floor of its reciprocal. */
  lemma ScalingDescends(m: real, c: real, wider: real)
    requires 0.0 < m && c >= 2.0 && wider == c * m && wider < 1.0
    ensures 0.0 < wider && 0 <= (1.0 / wider).Floor < (1.0 / m).Floor
  {
    var r := 1.0 / m;
    assert r > 1.0;
    assert 1.0 / wider == r / c;
    assert r / c <= r / 2.0;
  }

  /** Splitting each gap of width u into s equal parts multiplies the count by s. */
  /** EPS is exactly p gaps of width u. */
  predicate WholeGaps(u: real, p: nat) {
    u * (p as real) == EPS
  }

  lemma FinerGaps(fine: real, u: real, q: nat, s: nat) returns (p: nat)
    requires WholeGaps(u, q) && fine * (s as real) == u
    ensures p == s * q && WholeGaps(fine, p)
  {
    p := s * q;
    assert p as real == s as real * q as real;
    assert fine * (s as real * q as real) == (fine * s as real) * q as real;
  }

  /** Multiples of EPS below 2 in magnitude are doubles: rounding leaves them alone. */
  lemma RoundKeepsEpsGrid(k: int)
    requires -0x20_0000_0000_0000 < k < 0x20_0000_0000_0000
    ensures RoundToNearest(k as real * EPS) == k as real * EPS
  {
    var y := k as real * EPS;
    if y != 0.0 {
      var u := Ulp(Abs(y));
      var p := EpsIsWholeGaps(Abs(y));
      var n := k * p;
      ScaledGaps(k, p, u);
      assert y == n as real * u;
      RoundKeepsMultiples(n, u);
      assert RoundToMultiple(y, u) == y;
      assert RoundToNearest(y) == RoundToMultiple(y, u);
    }
  }

  lemma ScaledGaps(k: int, p: nat, u: real)
    requires WholeGaps(u, p)
    ensures k as real * EPS == (k * p) as real * u
  {
  }

  /** A whole multiple of u is its own rounding. */
  lemma RoundKeepsMultiples(n: int, u: real)
    requires u > 0.0
    ensures RoundToMultiple(n as real * u, u) == n as real * u
  {
    var q := (n as real * u) / u;
    assert q == n as real;
    assert q.Floor == n;
  }

  /** A value halfway between two multiples of u rounds to the even one. */
  lemma RoundTiesToEven(m: int, u: real)
    requires u > 0.0 && m % 2 == 0
    ensures RoundToMultiple(m as real * u - u / 2.0, u) == m as real * u
    ensures RoundToMultiple(m as real * u + u / 2.0, u) == m as real * u
  {
    OneGapLess(m, u);
    RoundHalfway(m - 1, u, m as real * u - u / 2.0);
    RoundHalfway(m, u, m as real * u + u / 2.0);
  }

  lemma OneGapLess(m: int, u: real)
    ensures (m - 1) as real * u == m as real * u - u
  {
  }

  lemma RoundHalfway(n: int, u: real, y: real)
    requires u > 0.0 && y == n as real * u + u / 2.0
    ensures RoundToMultiple(y, u) == (if n % 2 == 0 then n else n + 1) as real * u
  {
    QuotientIs(y, u, n as real + 0.5);
    assert (n as real + 0.5).Floor == n;
  }

  lemma QuotientIs(y: real, u: real, c: real)
    requires u > 0.0 && y == c * u
    ensures y / u == c
  {
  }

  /**
   * x + DBL_EPSILON in binary64, for a double x. Below magnitude 4 it is the
   * rounded sum; from magnitude 4 on adjacent doubles are at least 4 EPS
   * apart, so the sum rounds back to x.
   */
  function PlusEps(x: real): (r: real)
    ensures x <= r <= x + 2.0 * EPS
    ensures Abs(x + EPS) < 2.0 ==> x < r
  {
    if Abs(x + EPS) < 4.0 then RoundToNearest(x + EPS) else x
  }

  /** x - DBL_EPSILON in binary64, for a double x: the mirror image of PlusEps. */
  function MinusEps(x: real): (r: real)
    ensures x - 2.0 * EPS <= r <= x
    ensures Abs(x - EPS) < 2.0 ==> r < x
  {
    if Abs(x - EPS) < 4.0 then RoundToNearest(x - EPS) else x
  }

  /** A box whose east edge lies west of its west edge wraps through the antimeridian. */
  predicate BBoxIsTransmeridian(bbox: BBox) {
    bbox.east < bbox.west
  }

  /** Closed containment; a transmeridian box holds the longitudes outside (east, west). */
  predicate BBoxContains(bbox: BBox, p: LatLng) {
    p.lat >= bbox.south && p.lat <= bbox.north &&
    if BBoxIsTransmeridian(bbox) then p.lng >= bbox.west || p.lng <= bbox.east
    else p.lng >= bbox.west && p.lng <= bbox.east
  }

  /** Both coordinates differ by strictly less than the threshold. */
  predicate AlmostEqualThreshold(p: LatLng, q: LatLng, threshold: real) {
    Abs(p.lat - q.lat) < threshold && Abs(p.lng - q.lng) < threshold
  }

  /** Twice the signed area of the triangle (p0, p1, p2). */
  function Cross(p0: Vec2d, p1: Vec2d, p2: Vec2d): real {
    (p1.x - p0.x) * (p2.y - p0.y) - (p1.y - p0.y) * (p2.x - p0.x)
  }

  /** Orientation of p2 relative to the directed segment p0 -> p1: 1, 0 or -1. */
  function Orient(p0: Vec2d, p1: Vec2d, p2: Vec2d): (o: int)
    ensures -1 <= o <= 1
    ensures o == 0 <==> Cross(p0, p1, p2) == 0.0
    ensures o == 1 <==> Cross(p0, p1, p2) > 0.0
  {
    var d := Cross(p0, p1, p2);
    if d > 0.0 then 1 else if d < 0.0 then -1 else 0
  }
}
