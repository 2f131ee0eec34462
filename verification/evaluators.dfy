/** The three `computeLines` evaluators: the sample points a curve hands to
    the line renderer. Cubic and quadratic curves are sampled at `S + 1`
    parameter steps; every evaluator repeats its first and last sample, which
    the adjacency-based line primitive needs as end caps. */
module Evaluators {
  import opened Geometry
  import opened Outcomes

  /** Range of the "Segments" slider that sets the subdivision. */
  const MinSubdivision: int := 1
  const MaxSubdivision: int := 128

  /** The subdivision the polyline is constructed with; its evaluator never
      reads it. */
  const PolylineSubdivision: int := 1

  datatype CurveKind = PolylineCurve | CubicCurve | QuadraticCurve

  // ---- shared shape of a sample sequence ----

  /** `p` with its first and last element repeated. */
  function DuplicateEnds(p: seq<Vec3>): (r: seq<Vec3>)
    requires |p| >= 1
    ensures |r| == |p| + 2
  {
    [p[0]] + p + [p[|p| - 1]]
  }

  /** The two end caps repeat the first and the last point, and point `i`
      sits at index `i + 1`. */
  lemma DuplicateEndsAt(p: seq<Vec3>)
    requires |p| >= 1
    ensures var r := DuplicateEnds(p);
      && r[0] == p[0] && r[1] == p[0]
      && r[|r| - 2] == p[|p| - 1] && r[|r| - 1] == p[|p| - 1]
      && forall i :: 0 <= i < |p| ==> r[i + 1] == p[i]
  {
  }

  // ---- cubic Bézier ----

  /** The Bernstein weights of degree 3, in the grouping the evaluator uses. */
  function CubicWeight0(t: real): real { (1.0 - t) * ((1.0 - t) * (1.0 - t)) }
  function CubicWeight1(t: real): real { 3.0 * ((1.0 - t) * (1.0 - t)) * t }
  function CubicWeight2(t: real): real { 3.0 * (1.0 - t) * (t * t) }
  function CubicWeight3(t: real): real { t * (t * t) }

  /** The cubic Bézier with control points `b` at parameter `t`. */
  function CubicAt(b: seq<Vec3>, t: real): Vec3
    requires |b| == 4
  {
    Add(Add(Add(Scale(CubicWeight0(t), b[0]), Scale(CubicWeight1(t), b[1])),
            Scale(CubicWeight2(t), b[2])),
        Scale(CubicWeight3(t), b[3]))
  }

  /** Step `i` of `S` as the cubic evaluator computes it: `i * (1 / S)`. */
  function CubicParam(i: int, s: int): real
    requires s >= 1
  {
    (i as real) * (1.0 / (s as real))
  }

  /** The parameter runs from exactly 0 to exactly 1 (in exact arithmetic). */
  lemma CubicParamEnds(s: int)
    requires s >= 1
    ensures CubicParam(0, s) == 0.0 && CubicParam(s, s) == 1.0
  {
    ReciprocalCancels(s as real);
  }

  /** The four weights add up to one at every parameter. */
  lemma CubicWeightsSumToOne(t: real)
    ensures CubicWeight0(t) + CubicWeight1(t) + CubicWeight2(t) + CubicWeight3(t) == 1.0
  {
  }

  /** The curve starts at B0 and ends at B3. */
  lemma CubicAtEnds(b: seq<Vec3>)
    requires |b| == 4
    ensures CubicAt(b, 0.0) == b[0] && CubicAt(b, 1.0) == b[3]
  {
    CubicAtStart(b);
    CubicAtFinish(b);
  }

  lemma CubicAtStart(b: seq<Vec3>)
    requires |b| == 4
    ensures CubicAt(b, 0.0) == b[0]
  {
    var w0, w1, w2, w3 := CubicWeight0(0.0), CubicWeight1(0.0), CubicWeight2(0.0), CubicWeight3(0.0);
    assert w0 == 1.0 && w1 == 0.0 && w2 == 0.0 && w3 == 0.0;
    ScaleOne(b[0]);
    ScaleZero(b[1]);
    ScaleZero(b[2]);
    ScaleZero(b[3]);
    AddOrigin(b[0]);
    var front := Add(Scale(w0, b[0]), Scale(w1, b[1]));
    assert front == b[0];
    var inner := Add(front, Scale(w2, b[2]));
    assert inner == b[0];
  }

  lemma CubicAtFinish(b: seq<Vec3>)
    requires |b| == 4
    ensures CubicAt(b, 1.0) == b[3]
  {
    var w0, w1, w2, w3 := CubicWeight0(1.0), CubicWeight1(1.0), CubicWeight2(1.0), CubicWeight3(1.0);
    assert w0 == 0.0 && w1 == 0.0 && w2 == 0.0 && w3 == 1.0;
    ScaleZero(b[0]);
    ScaleZero(b[1]);
    ScaleZero(b[2]);
    ScaleOne(b[3]);
    AddOrigin(Origin);
    AddOrigin(b[3]);
    var front := Add(Scale(w0, b[0]), Scale(w1, b[1]));
    assert front == Origin;
    var inner := Add(front, Scale(w2, b[2]));
    assert inner == Origin;
  }

  /** A cubic whose four control points coincide is that point everywhere. */
  lemma CubicOfConstant(b: seq<Vec3>, t: real)
    requires |b| == 4 && b[1] == b[0] && b[2] == b[0] && b[3] == b[0]
    ensures CubicAt(b, t) == b[0]
  {
    ScaleSum4(CubicWeight0(t), CubicWeight1(t), CubicWeight2(t), CubicWeight3(t), b[0]);
    CubicWeightsSumToOne(t);
  }

  /** The points the cubic evaluator's loop pushes for steps `0 .. k - 1`
      of `S`, in order; the full loop runs `k = S + 1` steps. */
  function CubicSteps(b: seq<Vec3>, s: int, k: nat): (p: seq<Vec3>)
    requires |b| == 4 && s >= 1
    ensures |p| == k
  {
    if k == 0 then [] else CubicSteps(b, s, k - 1) + [CubicAt(b, CubicParam(k - 1, s))]
  }

  /** The point pushed for step `i` is the cubic at parameter `i * (1 / S)`. */
  lemma {:induction false} CubicStepsAt(b: seq<Vec3>, s: int, k: nat, i: nat)
    requires |b| == 4 && s >= 1 && i < k
    ensures CubicSteps(b, s, k)[i] == CubicAt(b, CubicParam(i, s))
  {
    if i < k - 1 {
      CubicStepsAt(b, s, k - 1, i);
    }
  }

  /** Sample `i + 1` of `r` is the cubic at step `i` of `S`. */
  predicate IsCubicSample(r: seq<Vec3>, b: seq<Vec3>, s: int, i: int)
    requires |b| == 4 && s >= 1 && 0 <= i && i + 1 < |r|
  {
    r[i + 1] == CubicAt(b, CubicParam(i, s))
  }

  /** What one cubic evaluation appends: `S + 3` samples, step `i` at index
      `i + 1`, with the first and the last step repeated. */
  function CubicSamples(b: seq<Vec3>, s: int): (r: seq<Vec3>)
    requires |b| == 4 && s >= 1
    ensures |r| == s + 3
  {
    DuplicateEnds(CubicSteps(b, s, s + 1))
  }

  /** The cubic samples repeat their first and last step, and sample `i + 1`
      is the cubic at step `i` of `S`. */
  lemma CubicSamplesAt(b: seq<Vec3>, s: int)
    requires |b| == 4 && s >= 1
    ensures var r := CubicSamples(b, s);
      && r[0] == r[1] && r[s + 1] == r[s + 2]
      && forall i :: 0 <= i <= s ==> IsCubicSample(r, b, s, i)
  {
    var p := CubicSteps(b, s, s + 1);
    DuplicateEndsAt(p);
    forall i | 0 <= i <= s
      ensures IsCubicSample(CubicSamples(b, s), b, s, i)
    {
      CubicStepsAt(b, s, s + 1, i);
    }
  }

  /** The first two samples are B0 and the last two are B3. */
  lemma CubicSamplesEnds(b: seq<Vec3>, s: int)
    requires |b| == 4 && s >= 1
    ensures CubicSamples(b, s)[0] == b[0] && CubicSamples(b, s)[1] == b[0]
    ensures CubicSamples(b, s)[s + 1] == b[3] && CubicSamples(b, s)[s + 2] == b[3]
  {
    var r := CubicSamples(b, s);
    CubicSamplesAt(b, s);
    CubicParamEnds(s);
    assert IsCubicSample(r, b, s, 0);
    CubicAtStart(b);
    assert IsCubicSample(r, b, s, s);
    CubicAtFinish(b);
  }

  /** The loop shared by the cubic and the quadratic `computeLines`: push
      every step onto `points`, and push the first and the last step a second
      time. */
  method AppendSamples(points: seq<Vec3>, steps: seq<Vec3>) returns (out: seq<Vec3>)
    requires |steps| >= 2
    ensures |out| == |points| + |steps| + 2
    ensures out[..|points|] == points
    ensures out[|points|..] == DuplicateEnds(steps)
  {
    var last := |steps| - 1;
    out := points;
    var i := 0;
    while i <= last
      invariant 0 <= i <= last + 1
      invariant i == 0 ==> out == points
      invariant 1 <= i <= last ==> out == points + [steps[0]] + steps[..i]
      invariant i == last + 1 ==> out == points + DuplicateEnds(steps)
    {
      var position := steps[i];
      assert steps[..i + 1] == steps[..i] + [position];
      out := out + [position];
      if i == 0 || i == last {
        out := out + [position];
      }
      if i == last {
        assert steps[..i + 1] == steps;
        assert out == points + [steps[0]] + steps + [steps[last]];
        assert points + [steps[0]] + steps + [steps[last]] == points + ([steps[0]] + steps + [steps[last]]);
      }
      i := i + 1;
    }
  }

  /** `CubicBezierCurve::computeLines`: fails unless there are exactly four
      control points, otherwise appends the `S + 3` cubic samples. */
  method CubicComputeLines(b: seq<Vec3>, s: int, points: seq<Vec3>) returns (r: Result<seq<Vec3>>)
    requires |b| != 4 || s >= 1
    ensures r.Err? <==> |b| != 4
    ensures r.Err? ==> r.error == WrongControlPointCount(4, |b|)
    ensures r.Ok? ==> r.value == points + CubicSamples(b, s)
    ensures r == ComputeLines(CubicCurve, b, s, points)
  {
    if |b| != 4 {
      return Err(WrongControlPointCount(4, |b|));
    }
    var out := AppendSamples(points, CubicSteps(b, s, s + 1));
    assert out == points + out[|points|..];
    return Ok(out);
  }

  // ---- two-piece quadratic Bézier ----

  /** The Bernstein weights of degree 2. */
  function QuadWeight0(s: real): real { (1.0 - s) * (1.0 - s) }
  function QuadWeight1(s: real): real { 2.0 * (1.0 - s) * s }
  function QuadWeight2(s: real): real { s * s }

  /** The quadratic Bézier with control points `a, b, c` at parameter `s`. */
  function QuadraticAt(a: Vec3, b: Vec3, c: Vec3, s: real): Vec3 {
    Add(Add(Scale(QuadWeight0(s), a), Scale(QuadWeight1(s), b)), Scale(QuadWeight2(s), c))
  }

  /** Step `i` of `S` as the quadratic evaluator computes it: `i / S`. */
  function QuadParam(i: int, s: int): real
    requires s >= 1
  {
    (i as real) / (s as real)
  }

  /** The remap of the curve parameter `t` onto the parameter of one half. */
  function PieceParam(t: real): real {
    if t < 0.5 then 2.0 * t else 2.0 * (t - 0.5)
  }

  /** The pair of quadratics (Q0, Q1, Q2) and (Q2, Q3, Q4) at curve parameter
      `t`: the left one for `t < 0.5`, the right one otherwise. */
  function PairAt(q: seq<Vec3>, t: real): Vec3
    requires |q| >= 5
  {
    if t < 0.5 then QuadraticAt(q[0], q[1], q[2], PieceParam(t))
    else QuadraticAt(q[2], q[3], q[4], PieceParam(t))
  }

  /** Which half a step falls in is decided by integers: step `i` of `S` is on
      the left half exactly when `2 i < S`, and its piece parameter is
      `2 i / S` there and `(2 i - S) / S` on the right. */
  lemma HalfSelection(i: int, s: int)
    requires s >= 1 && 0 <= i <= s
    ensures QuadParam(i, s) < 0.5 <==> 2 * i < s
    ensures 2 * i < s ==> PieceParam(QuadParam(i, s)) == ((2 * i) as real) / (s as real)
    ensures 2 * i >= s ==> PieceParam(QuadParam(i, s)) == ((2 * i - s) as real) / (s as real)
  {
    var n := i as real;
    var d := s as real;
    HalfCompare(n, d);
    assert ((2 * i) as real) == 2.0 * n;
    assert ((2 * i - s) as real) == 2.0 * n - d;
    DivisionOfDouble(n, d);
    DivisionOfShifted(n, d);
  }

  /** The two halves meet: the left one ends and the right one starts at Q2. */
  lemma PairJoinIsContinuous(q: seq<Vec3>)
    requires |q| >= 5
    ensures QuadraticAt(q[0], q[1], q[2], 1.0) == q[2]
    ensures QuadraticAt(q[2], q[3], q[4], 0.0) == q[2]
    ensures PairAt(q, 0.5) == q[2]
  {
    QuadraticAtOne(q[0], q[1], q[2]);
    QuadraticAtZero(q[2], q[3], q[4]);
    assert PieceParam(0.5) == 0.0;
  }

  /** The pair starts at Q0 and ends at Q4. */
  lemma PairAtEnds(q: seq<Vec3>)
    requires |q| >= 5
    ensures PairAt(q, 0.0) == q[0] && PairAt(q, 1.0) == q[4]
  {
    assert PieceParam(0.0) == 0.0;
    QuadraticAtZero(q[0], q[1], q[2]);
    assert PieceParam(1.0) == 1.0;
    QuadraticAtOne(q[2], q[3], q[4]);
  }

  lemma QuadraticAtZero(a: Vec3, b: Vec3, c: Vec3)
    ensures QuadraticAt(a, b, c, 0.0) == a
  {
    assert QuadraticAt(a, b, c, 0.0) == Add(Add(Scale(1.0, a), Scale(0.0, b)), Scale(0.0, c));
    ScaleOne(a);
    ScaleZero(b);
    ScaleZero(c);
    AddOrigin(a);
  }

  lemma QuadraticAtOne(a: Vec3, b: Vec3, c: Vec3)
    ensures QuadraticAt(a, b, c, 1.0) == c
  {
    assert QuadraticAt(a, b, c, 1.0) == Add(Add(Scale(0.0, a), Scale(0.0, b)), Scale(1.0, c));
    ScaleZero(a);
    ScaleZero(b);
    ScaleOne(c);
    AddOrigin(Origin);
    AddOrigin(c);
  }

  /** The three weights add up to one at every parameter. */
  lemma QuadWeightsSumToOne(s: real)
    ensures QuadWeight0(s) + QuadWeight1(s) + QuadWeight2(s) == 1.0
  {
  }

  /** A pair whose five control points coincide is that point everywhere. */
  lemma PairOfConstant(q: seq<Vec3>, t: real)
    requires |q| >= 5 && forall k :: 0 <= k < 5 ==> q[k] == q[0]
    ensures PairAt(q, t) == q[0]
  {
    var s := PieceParam(t);
    assert q[1] == q[0] && q[2] == q[0] && q[3] == q[0] && q[4] == q[0];
    ScaleSum3(QuadWeight0(s), QuadWeight1(s), QuadWeight2(s), q[0]);
    QuadWeightsSumToOne(s);
  }

  /** The points the quadratic evaluator's loop pushes for steps
      `0 .. k - 1` of `S`, in order. */
  function QuadraticSteps(q: seq<Vec3>, s: int, k: nat): (p: seq<Vec3>)
    requires |q| >= 5 && s >= 1
    ensures |p| == k
  {
    if k == 0 then [] else QuadraticSteps(q, s, k - 1) + [PairAt(q, QuadParam(k - 1, s))]
  }

  /** The point pushed for step `i` is the pair at parameter `i / S`. */
  lemma {:induction false} QuadraticStepsAt(q: seq<Vec3>, s: int, k: nat, i: nat)
    requires |q| >= 5 && s >= 1 && i < k
    ensures QuadraticSteps(q, s, k)[i] == PairAt(q, QuadParam(i, s))
  {
    if i < k - 1 {
      QuadraticStepsAt(q, s, k - 1, i);
    }
  }

  /** Sample `i + 1` of `r` is the quadratic pair at step `i` of `S`. */
  predicate IsQuadraticSample(r: seq<Vec3>, q: seq<Vec3>, s: int, i: int)
    requires |q| >= 5 && s >= 1 && 0 <= i && i + 1 < |r|
  {
    r[i + 1] == PairAt(q, QuadParam(i, s))
  }

  /** What one quadratic evaluation appends: `S + 3` samples, step `i` at
      index `i + 1`, with the first and the last step repeated. */
  function QuadraticSamples(q: seq<Vec3>, s: int): (r: seq<Vec3>)
    requires |q| >= 5 && s >= 1
    ensures |r| == s + 3
  {
    DuplicateEnds(QuadraticSteps(q, s, s + 1))
  }

  /** The quadratic samples repeat their first and last step, and sample
      `i + 1` is the pair at step `i` of `S`. */
  lemma QuadraticSamplesAt(q: seq<Vec3>, s: int)
    requires |q| >= 5 && s >= 1
    ensures var r := QuadraticSamples(q, s);
      && r[0] == r[1] && r[s + 1] == r[s + 2]
      && forall i :: 0 <= i <= s ==> IsQuadraticSample(r, q, s, i)
  {
    var p := QuadraticSteps(q, s, s + 1);
    DuplicateEndsAt(p);
    forall i | 0 <= i <= s
      ensures IsQuadraticSample(QuadraticSamples(q, s), q, s, i)
    {
      QuadraticStepsAt(q, s, s + 1, i);
    }
  }

  /** The first two samples are Q0, the last two are Q4, and for an even `S`
      the middle step lands exactly on the joint Q2. */
  lemma QuadraticSamplesLandmarks(q: seq<Vec3>, s: int)
    requires |q| >= 5 && s >= 1
    ensures QuadraticSamples(q, s)[0] == q[0] && QuadraticSamples(q, s)[1] == q[0]
    ensures QuadraticSamples(q, s)[s + 1] == q[4] && QuadraticSamples(q, s)[s + 2] == q[4]
    ensures s % 2 == 0 ==> QuadraticSamples(q, s)[s / 2 + 1] == q[2]
  {
    var r := QuadraticSamples(q, s);
    QuadraticSamplesAt(q, s);
    QuadParamEnds(s);
    PairAtEnds(q);
    assert IsQuadraticSample(r, q, s, 0);
    assert IsQuadraticSample(r, q, s, s);
    if s % 2 == 0 {
      QuadParamMiddle(s);
      PairJoinIsContinuous(q);
      assert IsQuadraticSample(r, q, s, s / 2);
    }
  }

  /** `i / S` is exactly 0 at the first step and 1 at the last one. */
  lemma QuadParamEnds(s: int)
    requires s >= 1
    ensures QuadParam(0, s) == 0.0 && QuadParam(s, s) == 1.0
  {
  }

  /** For an even `S` the middle step has parameter exactly one half. */
  lemma QuadParamMiddle(s: int)
    requires s >= 1 && s % 2 == 0
    ensures QuadParam(s / 2, s) == 0.5
  {
    var h := (s / 2) as real;
    assert (s as real) == 2.0 * h;
    HalfOfDouble(h);
  }

  /** `QuadraticBezierCurve::computeLines`: appends the `S + 3` samples of
      the pair. It reads Q0..Q4 without checking the size, so five control
      points are required. */
  method QuadraticComputeLines(q: seq<Vec3>, s: int, points: seq<Vec3>) returns (r: seq<Vec3>)
    requires |q| >= 5 && s >= 1
    ensures r == points + QuadraticSamples(q, s)
    ensures ComputeLines(QuadraticCurve, q, s, points) == Ok(r)
  {
    r := AppendSamples(points, QuadraticSteps(q, s, s + 1));
    assert r == points + r[|points|..];
  }

  // ---- polyline ----

  /** The loop of `Polyline::computeLines`: with no control points the
      samples are left as they are; otherwise they are replaced by the control
      points with the first and the last one repeated. */
  method PolylineComputeLines(cp: seq<Vec3>, points: seq<Vec3>) returns (r: seq<Vec3>)
    ensures |cp| == 0 ==> r == points
    ensures |cp| >= 1 ==> |r| == |cp| + 2
    ensures |cp| >= 1 ==> r[0] == cp[0] && r[1] == cp[0]
    ensures |cp| >= 1 ==> r[|r| - 2] == cp[|cp| - 1] && r[|r| - 1] == cp[|cp| - 1]
    ensures forall i :: 0 <= i < |cp| ==> r[i + 1] == cp[i]
    ensures forall s :: ComputeLines(PolylineCurve, cp, s, points) == Ok(r)
  {
    if |cp| == 0 {
      return points;
    }
    var out := [cp[0]];
    var i := 0;
    while i < |cp|
      invariant 0 <= i <= |cp|
      invariant out == [cp[0]] + cp[..i]
    {
      out := out + [cp[i]];
      i := i + 1;
    }
    out := out + [out[|out| - 1]];
    assert out == DuplicateEnds(cp);
    return out;
  }

  // ---- dispatch ----

  /** The evaluators' preconditions: the cubic divides by `S` only once it
      has passed its control-point check, and the quadratic reads five
      control points and divides by `S`. */
  predicate Evaluable(kind: CurveKind, cp: seq<Vec3>, s: int) {
    match kind
    case PolylineCurve => true
    case CubicCurve => |cp| != 4 || s >= 1
    case QuadraticCurve => |cp| >= 5 && s >= 1
  }

  /** `computeLines` of each curve kind, appending to (cubic, quadratic) or
      replacing (polyline) the current samples `points`. */
  function ComputeLines(kind: CurveKind, cp: seq<Vec3>, s: int, points: seq<Vec3>): (r: Result<seq<Vec3>>)
    requires Evaluable(kind, cp, s)
    ensures r.Err? <==> kind == CubicCurve && |cp| != 4
    ensures r.Err? ==> r.error == WrongControlPointCount(4, |cp|)
    ensures r.Ok? && kind != PolylineCurve ==>
      |r.value| == |points| + s + 3 && r.value[..|points|] == points
    ensures r.Ok? && kind == PolylineCurve && |cp| == 0 ==> r.value == points
    ensures r.Ok? && kind == PolylineCurve && |cp| >= 1 ==> |r.value| == |cp| + 2
  {
    match kind
    case PolylineCurve => Ok(if |cp| == 0 then points else DuplicateEnds(cp))
    case CubicCurve =>
      if |cp| != 4 then Err(WrongControlPointCount(4, |cp|)) else Ok(points + CubicSamples(cp, s))
    case QuadraticCurve => Ok(points + QuadraticSamples(cp, s))
  }

  /** The polyline is connect-the-dots: its samples do not depend on the
      subdivision. */
  lemma PolylineIgnoresSubdivision(cp: seq<Vec3>, s: int, s': int, points: seq<Vec3>)
    ensures ComputeLines(PolylineCurve, cp, s, points) == ComputeLines(PolylineCurve, cp, s', points)
    ensures |cp| >= 1 ==> ComputeLines(PolylineCurve, cp, s, points).value == DuplicateEnds(cp)
  {
  }

  // ---- arithmetic used above ----

  lemma ReciprocalCancels(d: real)
    requires d != 0.0
    ensures d * (1.0 / d) == 1.0
  {
  }

  lemma HalfCompare(n: real, d: real)
    requires d > 0.0
    ensures n / d < 0.5 <==> 2.0 * n < d
  {
    assert n / d * d == n;
  }

  lemma DivisionOfDouble(n: real, d: real)
    requires d > 0.0
    ensures 2.0 * (n / d) == (2.0 * n) / d
  {
  }

  lemma DivisionOfShifted(n: real, d: real)
    requires d > 0.0
    ensures 2.0 * (n / d - 0.5) == (2.0 * n - d) / d
  {
    assert (2.0 * n - d) / d == (2.0 * n) / d - d / d;
    assert d / d == 1.0;
    DivisionOfDouble(n, d);
  }

  lemma HalfOfDouble(h: real)
    requires h > 0.0
    ensures h / (2.0 * h) == 0.5
  {
  }

  lemma ScaleSum3(a: real, b: real, c: real, v: Vec3)
    ensures Add(Add(Scale(a, v), Scale(b, v)), Scale(c, v)) == Scale(a + b + c, v)
  {
  }

  lemma ScaleSum4(a: real, b: real, c: real, d: real, v: Vec3)
    ensures Add(Add(Add(Scale(a, v), Scale(b, v)), Scale(c, v)), Scale(d, v)) == Scale(a + b + c + d, v)
  {
  }
}
