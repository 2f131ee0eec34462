/** Derivation of cubic Bézier control points from data points by centripetal
    Catmull-Rom interpolation: every sliding window of four data points
    P0..P3 becomes one cubic Bézier B0..B3 running from P1 to P2. */
module CatmullRom {
  import opened Geometry

  /** The exponent of the chord-length parameterisation; 0.5 is the
      centripetal variant. The application never changes it. */
  const Alpha: real := 0.5

  /** The two numeric primitives the fit relies on: the Euclidean length of a
      vector and `pow(base, exponent)`. Both are left uninterpreted; the
      properties below depend only on where the denominators vanish. */
  datatype Metric = Metric(len: Vec3 -> real, pow: (real, real) -> real)

  /** `d^alpha` for the distance between two points. */
  function DistPow(m: Metric, a: Vec3, b: Vec3, e: real): real {
    m.pow(m.len(Sub(a, b)), e)
  }

  /** The handle denominator `3 da (da + db)` for the `alpha` powers `da` of
      the near chord and `db` of the middle chord. */
  function Denominator(da: real, db: real): real {
    3.0 * da * (da + db)
  }

  /** Denominator of the first handle: `3 d1^a (d1^a + d2^a)`. */
  function HandleDenominator1(m: Metric, p0: Vec3, p1: Vec3, p2: Vec3): real {
    Denominator(DistPow(m, p0, p1, Alpha), DistPow(m, p1, p2, Alpha))
  }

  /** Denominator of the second handle: `3 d3^a (d3^a + d2^a)`. */
  function HandleDenominator2(m: Metric, p1: Vec3, p2: Vec3, p3: Vec3): real {
    Denominator(DistPow(m, p2, p3, Alpha), DistPow(m, p1, p2, Alpha))
  }

  /** A window whose two handle denominators are non-zero, so that the
      conversion divides by non-zero numbers. */
  predicate RegularWindow(m: Metric, p0: Vec3, p1: Vec3, p2: Vec3, p3: Vec3) {
    HandleDenominator1(m, p0, p1, p2) != 0.0 && HandleDenominator2(m, p1, p2, p3) != 0.0
  }

  /** The handle formula shared by both inner control points: with `da`,
      `db` the `alpha` powers of the near and the middle chord and `da2`,
      `db2` their `2 alpha` powers, the handle next to anchor `w` is
      `(da2 u - db2 v + (2 da2 + 3 da db + db2) w) / (3 da (da + db))`. */
  function Handle(da: real, db: real, da2: real, db2: real, u: Vec3, v: Vec3, w: Vec3): Vec3
    requires Denominator(da, db) != 0.0
  {
    Vec3(HandleCoordinate(da, db, da2, db2, u.x, v.x, w.x),
         HandleCoordinate(da, db, da2, db2, u.y, v.y, w.y),
         HandleCoordinate(da, db, da2, db2, u.z, v.z, w.z))
  }

  /** One coordinate of `Handle`. */
  function HandleCoordinate(da: real, db: real, da2: real, db2: real, u: real, v: real, w: real): real
    requires Denominator(da, db) != 0.0
  {
    (da2 * u - db2 * v + (2.0 * da2 + 3.0 * da * db + db2) * w) / Denominator(da, db)
  }

  /** The conversion of one window `P0..P3` into the cubic `B0..B3`. */
  function ConvertWindow(m: Metric, p0: Vec3, p1: Vec3, p2: Vec3, p3: Vec3): (b: seq<Vec3>)
    requires RegularWindow(m, p0, p1, p2, p3)
    ensures |b| == 4
    ensures b[0] == p1 && b[3] == p2
  {
    var d1a := DistPow(m, p0, p1, Alpha);
    var d2a := DistPow(m, p1, p2, Alpha);
    var d3a := DistPow(m, p2, p3, Alpha);
    var d1a2 := DistPow(m, p0, p1, 2.0 * Alpha);
    var d2a2 := DistPow(m, p1, p2, 2.0 * Alpha);
    var d3a2 := DistPow(m, p2, p3, 2.0 * Alpha);
    [p1, Handle(d1a, d2a, d1a2, d2a2, p2, p0, p1), Handle(d3a, d2a, d3a2, d2a2, p1, p3, p2), p2]
  }

  /** Window `i` of the data points is regular. */
  predicate WindowRegularAt(m: Metric, pts: seq<Vec3>, i: int)
    requires 0 <= i && i + 3 < |pts|
  {
    RegularWindow(m, pts[i], pts[i + 1], pts[i + 2], pts[i + 3])
  }

  /** Every sliding window of the data points is regular. */
  predicate FitRegular(m: Metric, pts: seq<Vec3>) {
    forall i :: 0 <= i && i + 3 < |pts| ==> WindowRegularAt(m, pts, i)
  }

  /** The cubic derived from window `i` of the data points. */
  function WindowCubic(m: Metric, pts: seq<Vec3>, i: int): (b: seq<Vec3>)
    requires 0 <= i && i + 3 < |pts|
    requires WindowRegularAt(m, pts, i)
    ensures |b| == 4
  {
    ConvertWindow(m, pts[i], pts[i + 1], pts[i + 2], pts[i + 3])
  }

  /** The `i`-th 4-tuple of a flat control-point sequence. */
  function Tuple(cps: seq<Vec3>, i: int): (t: seq<Vec3>)
    requires 0 <= i && 4 * i + 4 <= |cps|
    ensures |t| == 4
  {
    cps[4 * i .. 4 * i + 4]
  }

  /** The loop of `computeBezierControlPointsFromCatmullRom`: windows
      `0 .. N-4` converted in order and concatenated. The loop bound
      `size() - 3` is unsigned, so fewer than 3 data points is outside the
      contract; with exactly 3 the loop does not run. */
  function Fit(m: Metric, pts: seq<Vec3>): (r: seq<Vec3>)
    requires |pts| >= 3
    requires FitRegular(m, pts)
    ensures |r| == 4 * (|pts| - 3)
    ensures forall i :: 0 <= i < |pts| - 3 ==> Tuple(r, i) == WindowCubic(m, pts, i)
    decreases |pts|
  {
    if |pts| == 3 then []
    else
      var prefix := pts[..|pts| - 1];
      forall i | 0 <= i && i + 3 < |prefix|
        ensures WindowRegularAt(m, prefix, i)
      {
        assert WindowRegularAt(m, pts, i);
      }
      var front := Fit(m, prefix);
      var last := WindowCubic(m, pts, |pts| - 4);
      var r := front + last;
      forall i | 0 <= i < |pts| - 3
        ensures Tuple(r, i) == WindowCubic(m, pts, i)
      {
        if i < |pts| - 4 {
          assert Tuple(r, i) == Tuple(front, i);
        } else {
          assert Tuple(r, i) == last;
        }
      }
      r
  }

  /** Anchor reproduction: tuple `i` runs from data point `i+1` to data point
      `i+2`, so consecutive cubics share their joining anchor and the fitted
      spline passes through every interior data point. */
  lemma FitAnchors(m: Metric, pts: seq<Vec3>)
    requires |pts| >= 3
    requires FitRegular(m, pts)
    ensures forall i :: 0 <= i < |pts| - 3 ==> Tuple(Fit(m, pts), i)[0] == pts[i + 1]
    ensures forall i :: 0 <= i < |pts| - 3 ==> Tuple(Fit(m, pts), i)[3] == pts[i + 2]
    ensures forall i :: 0 <= i < |pts| - 4 ==> Tuple(Fit(m, pts), i)[3] == Tuple(Fit(m, pts), i + 1)[0]
  {
    var r := Fit(m, pts);
    forall i | 0 <= i < |pts| - 3
      ensures Tuple(r, i)[0] == pts[i + 1] && Tuple(r, i)[3] == pts[i + 2]
    {
      assert Tuple(r, i) == WindowCubic(m, pts, i);
    }
  }

  /** Distinct consecutive points are enough: if `pow(d, alpha)` is positive
      for positive `d` and all three chords have positive length, the window is
      regular. */
  lemma DistinctWindowIsRegular(m: Metric, p0: Vec3, p1: Vec3, p2: Vec3, p3: Vec3)
    requires forall d :: d > 0.0 ==> m.pow(d, Alpha) > 0.0
    requires m.len(Sub(p0, p1)) > 0.0 && m.len(Sub(p1, p2)) > 0.0 && m.len(Sub(p2, p3)) > 0.0
    ensures RegularWindow(m, p0, p1, p2, p3)
  {
    var d1a := DistPow(m, p0, p1, Alpha);
    var d2a := DistPow(m, p1, p2, Alpha);
    var d3a := DistPow(m, p2, p3, Alpha);
    assert d1a > 0.0 && d2a > 0.0 && d3a > 0.0;
    assert d1a * (d1a + d2a) > 0.0;
    assert d3a * (d3a + d2a) > 0.0;
  }

  /** The unguarded edge case: when the first or the last chord has zero
      length (and `pow(0, alpha)` is 0, as for the real power function) a
      handle denominator vanishes and the window is not regular. */
  lemma CoincidentPointsAreSingular(m: Metric, p0: Vec3, p1: Vec3, p2: Vec3, p3: Vec3)
    requires m.pow(0.0, Alpha) == 0.0
    requires m.len(Sub(p0, p1)) == 0.0 || m.len(Sub(p2, p3)) == 0.0
    ensures !RegularWindow(m, p0, p1, p2, p3)
  {
  }

  /** Reference check against uniform Catmull-Rom: when the three chords have
      the same `d^alpha = c > 0` (and `d^(2 alpha) = c^2`), the handles are
      the textbook `B1 = P1 + (P2 - P0)/6` and `B2 = P2 - (P3 - P1)/6`. */
  lemma UniformWindowHandles(m: Metric, p0: Vec3, p1: Vec3, p2: Vec3, p3: Vec3, c: real)
    requires c > 0.0
    requires DistPow(m, p0, p1, Alpha) == c && DistPow(m, p1, p2, Alpha) == c && DistPow(m, p2, p3, Alpha) == c
    requires DistPow(m, p0, p1, 2.0 * Alpha) == c * c
    requires DistPow(m, p1, p2, 2.0 * Alpha) == c * c
    requires DistPow(m, p2, p3, 2.0 * Alpha) == c * c
    ensures RegularWindow(m, p0, p1, p2, p3)
    ensures ConvertWindow(m, p0, p1, p2, p3)[1] == Add(p1, Div(Sub(p2, p0), 6.0))
    ensures ConvertWindow(m, p0, p1, p2, p3)[2] == Sub(p2, Div(Sub(p3, p1), 6.0))
  {
    var d1a, d2a, d3a := DistPow(m, p0, p1, Alpha), DistPow(m, p1, p2, Alpha), DistPow(m, p2, p3, Alpha);
    var d1a2, d2a2, d3a2 := DistPow(m, p0, p1, 2.0 * Alpha), DistPow(m, p1, p2, 2.0 * Alpha), DistPow(m, p2, p3, 2.0 * Alpha);
    UniformHandle(d1a, d2a, d1a2, d2a2, p2, p0, p1);
    UniformHandle(d3a, d2a, d3a2, d2a2, p1, p3, p2);
    AddFlippedQuotient(p2, p1, p3, 6.0);
  }

  /** With equal `alpha` powers on both chords (and `2 alpha` powers their
      square) the handle next to `w` is `w + (u - v) / 6`. */
  lemma UniformHandle(da: real, db: real, da2: real, db2: real, u: Vec3, v: Vec3, w: Vec3)
    requires da > 0.0 && da == db && da2 == da * db && db2 == da * db
    ensures Denominator(da, db) != 0.0
    ensures Handle(da, db, da2, db2, u, v, w) == Add(w, Div(Sub(u, v), 6.0))
  {
    var k := da * db;
    UniformScalar(da, k, u.x, v.x, w.x);
    UniformScalar(da, k, u.y, v.y, w.y);
    UniformScalar(da, k, u.z, v.z, w.z);
  }

  /** `UniformHandle` one coordinate at a time, for `d^alpha = d` on both
      chords and `d^(2 alpha) = k = d^2`. */
  lemma UniformScalar(d: real, k: real, u: real, v: real, w: real)
    requires d > 0.0 && k == d * d
    ensures Denominator(d, d) != 0.0 && HandleCoordinate(d, d, k, k, u, v, w) == w + (u - v) / 6.0
  {
    ProductPositive(d, d, k);
    assert Denominator(d, d) == 6.0 * k;
    assert k * u - k * v + (2.0 * k + 3.0 * d * d + k) * w == k * ((u - v) + 6.0 * w);
    SixfoldCancels(k, (u - v) + 6.0 * w);
  }

  lemma ProductPositive(a: real, b: real, k: real)
    requires a > 0.0 && b > 0.0 && k == a * b
    ensures k > 0.0
  {
  }

  lemma SixfoldCancels(k: real, x: real)
    requires k > 0.0
    ensures (k * x) / (6.0 * k) == x / 6.0
  {
    assert (k * x) / (6.0 * k) * (6.0 * k) == k * x;
  }
}
