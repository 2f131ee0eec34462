/** The quadratic approximation of one cubic Bézier: from the cubic's control
    points B0..B3 and a blend factor gamma, five control points Q0..Q4 of two
    quadratic Bézier halves (Q0, Q1, Q2) and (Q2, Q3, Q4) joined at Q2. */
module QuadraticApprox {
  import opened Geometry

  /** The value the "Set 0.5" button restores and the application starts with. */
  const DefaultGamma: real := 0.5

  /** The derivation in `updateCurveControlPoints`: the end points are kept,
      the inner handles are the cubic's handles scaled by `1.5 gamma` and
      `1.5 (1 - gamma)`, and the joint is their gamma-blend. */
  function QuadraticFromCubic(b: seq<Vec3>, gamma: real): (q: seq<Vec3>)
    requires |b| == 4
    ensures |q| == 5
    ensures q[0] == b[0] && q[4] == b[3]
  {
    var q1 := Add(b[0], Scale(1.5 * gamma, Sub(b[1], b[0])));
    var q3 := Sub(b[3], Scale(1.5 * (1.0 - gamma), Sub(b[3], b[2])));
    var q2 := Add(Scale(1.0 - gamma, q1), Scale(gamma, q3));
    [b[0], q1, q2, q3, b[3]]
  }

  /** The end handles are scaled copies of the cubic's end handles:
      `Q1 - Q0 = 1.5 gamma (B1 - B0)` and `Q4 - Q3 = 1.5 (1 - gamma) (B3 - B2)`. */
  lemma EndHandles(b: seq<Vec3>, gamma: real)
    requires |b| == 4
    ensures var q := QuadraticFromCubic(b, gamma);
      Sub(q[1], q[0]) == Scale(1.5 * gamma, Sub(b[1], b[0]))
      && Sub(q[4], q[3]) == Scale(1.5 * (1.0 - gamma), Sub(b[3], b[2]))
  {
  }

  /** The joint divides the segment Q1 Q3 in the ratio gamma : (1 - gamma):
      `Q2 - Q1 = gamma (Q3 - Q1)` and `Q3 - Q2 = (1 - gamma) (Q3 - Q1)`. */
  lemma JointIsBlend(b: seq<Vec3>, gamma: real)
    requires |b| == 4
    ensures var q := QuadraticFromCubic(b, gamma);
      Sub(q[2], q[1]) == Scale(gamma, Sub(q[3], q[1]))
      && Sub(q[3], q[2]) == Scale(1.0 - gamma, Sub(q[3], q[1]))
  {
    var q := QuadraticFromCubic(b, gamma);
    BlendFromStart(q[1], q[3], gamma);
    BlendToEnd(q[1], q[3], gamma);
  }

  /** For a slider value in [0, 1] the joint lies on the segment Q1 Q3. */
  lemma JointOnSegment(b: seq<Vec3>, gamma: real)
    requires |b| == 4
    requires 0.0 <= gamma <= 1.0
    ensures var q := QuadraticFromCubic(b, gamma);
      OnSegment(q[2], q[1], q[3])
  {
    var q := QuadraticFromCubic(b, gamma);
    assert q[2] == Lerp(q[1], q[3], gamma);
  }

  /** gamma = 0 collapses the left half's handle and joint onto B0. */
  lemma GammaZero(b: seq<Vec3>)
    requires |b| == 4
    ensures var q := QuadraticFromCubic(b, 0.0);
      q[1] == b[0] && q[2] == b[0]
  {
  }

  /** gamma = 1 collapses the right half's handle and joint onto B3. */
  lemma GammaOne(b: seq<Vec3>)
    requires |b| == 4
    ensures var q := QuadraticFromCubic(b, 1.0);
      q[3] == b[3] && q[2] == b[3]
  {
  }

  /** The derivation does not depend on where the origin is: translating the
      cubic by `v` translates every quadratic control point by `v`. */
  lemma TranslationEquivariant(b: seq<Vec3>, v: Vec3, gamma: real)
    requires |b| == 4
    ensures QuadraticFromCubic(TranslateAll(b, v), gamma) == TranslateAll(QuadraticFromCubic(b, gamma), v)
  {
    var q := QuadraticFromCubic(b, gamma);
    var q' := QuadraticFromCubic(TranslateAll(b, v), gamma);
    var t := TranslateAll(q, v);
    assert q'[1] == t[1];
    assert q'[3] == t[3];
    BlendTranslate(q[1], q[3], v, gamma);
    assert q' == t;
  }

  /** The standard end derivatives of a cubic Bézier: `3 (B1 - B0)` at
      t = 0 and `3 (B3 - B2)` at t = 1, the derivative of `Evaluators.CubicAt`
      there. They are stated as these textbook formulas, not derived from the
      evaluator. */
  function CubicStartTangent(b: seq<Vec3>): Vec3
    requires |b| == 4
  {
    Scale(3.0, Sub(b[1], b[0]))
  }

  function CubicEndTangent(b: seq<Vec3>): Vec3
    requires |b| == 4
  {
    Scale(3.0, Sub(b[3], b[2]))
  }

  /** The standard end derivatives of the quadratic pair at t = 0 and t = 1.
      Each half is a quadratic Bézier in `s = 2t` with end derivatives
      `2 (Q1 - Q0)` and `2 (Q4 - Q3)`; the chain rule doubles them. Like the
      cubic ones, these are the textbook formulas, not derived from
      `Evaluators.PairAt`. */
  function PairStartTangent(q: seq<Vec3>): Vec3
    requires |q| == 5
  {
    Scale(4.0, Sub(q[1], q[0]))
  }

  function PairEndTangent(q: seq<Vec3>): Vec3
    requires |q| == 5
  {
    Scale(4.0, Sub(q[4], q[3]))
  }

  /** The approximation keeps the cubic's end tangent directions (scaled by
      `2 gamma` and `2 (1 - gamma)`), and at the default gamma = 0.5 it keeps
      the tangent vectors themselves. */
  lemma EndTangentsMatchCubic(b: seq<Vec3>, gamma: real)
    requires |b| == 4
    ensures PairStartTangent(QuadraticFromCubic(b, gamma)) == Scale(2.0 * gamma, CubicStartTangent(b))
    ensures PairEndTangent(QuadraticFromCubic(b, gamma)) == Scale(2.0 * (1.0 - gamma), CubicEndTangent(b))
    ensures gamma == DefaultGamma ==>
      PairStartTangent(QuadraticFromCubic(b, gamma)) == CubicStartTangent(b)
      && PairEndTangent(QuadraticFromCubic(b, gamma)) == CubicEndTangent(b)
  {
    StartTangentScaled(b, gamma);
    EndTangentScaled(b, gamma);
    if gamma == DefaultGamma {
      assert 2.0 * gamma == 1.0 && 2.0 * (1.0 - gamma) == 1.0;
      ScaleOne(CubicStartTangent(b));
      ScaleOne(CubicEndTangent(b));
    }
  }

  /** The start half of `EndTangentsMatchCubic`. */
  lemma StartTangentScaled(b: seq<Vec3>, gamma: real)
    requires |b| == 4
    ensures PairStartTangent(QuadraticFromCubic(b, gamma)) == Scale(2.0 * gamma, CubicStartTangent(b))
  {
    EndHandles(b, gamma);
    ScaledHandle(Sub(b[1], b[0]), gamma);
  }


  /** The end half of `EndTangentsMatchCubic`. */
  lemma EndTangentScaled(b: seq<Vec3>, gamma: real)
    requires |b| == 4
    ensures PairEndTangent(QuadraticFromCubic(b, gamma)) == Scale(2.0 * (1.0 - gamma), CubicEndTangent(b))
  {
    EndHandles(b, gamma);
    ScaledHandle(Sub(b[3], b[2]), 1.0 - gamma);
  }



  // ---- vector algebra used above ----

  /** `4 (1.5 h a) = 2 h (3 a)`: a handle scaled by `1.5 h` and seen by the
      doubled parameter is the cubic's tangent scaled by `2 h`. */
  lemma ScaledHandle(a: Vec3, h: real)
    ensures Scale(4.0, Scale(1.5 * h, a)) == Scale(2.0 * h, Scale(3.0, a))
  {
  }


  lemma BlendTranslate(a: Vec3, b: Vec3, v: Vec3, g: real)
    ensures Add(Scale(1.0 - g, Add(a, v)), Scale(g, Add(b, v))) == Add(Add(Scale(1.0 - g, a), Scale(g, b)), v)
  {
    ScaleAdd(1.0 - g, a, v);
    ScaleAdd(g, b, v);
    ScaleComplement(g, v);
  }

  lemma BlendFromStart(a: Vec3, b: Vec3, g: real)
    ensures Sub(Add(Scale(1.0 - g, a), Scale(g, b)), a) == Scale(g, Sub(b, a))
  {
    ScaleComplement(g, a);
    ScaleSub(g, b, a);
  }

  lemma BlendToEnd(a: Vec3, b: Vec3, g: real)
    ensures Sub(b, Add(Scale(1.0 - g, a), Scale(g, b))) == Scale(1.0 - g, Sub(b, a))
  {
    ScaleComplement(g, a);
    ScaleComplement(g, b);
    ScaleSub(1.0 - g, b, a);
  }
}
