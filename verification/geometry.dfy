/** Three-dimensional points and vectors over exact real arithmetic.

    Positions in the application are single-precision `Vector3` values; here
    they are `real` triples, so rounding is not modelled (see README). */
module Geometry {

  datatype Vec3 = Vec3(x: real, y: real, z: real)

  const Origin: Vec3 := Vec3(0.0, 0.0, 0.0)

  function Add(a: Vec3, b: Vec3): Vec3 {
    Vec3(a.x + b.x, a.y + b.y, a.z + b.z)
  }

  function Sub(a: Vec3, b: Vec3): Vec3 {
    Vec3(a.x - b.x, a.y - b.y, a.z - b.z)
  }

  /** Scalar times vector, `k * v`. */
  function Scale(k: real, v: Vec3): Vec3 {
    Vec3(k * v.x, k * v.y, k * v.z)
  }

  /** Component-wise division `v / d`, defined only for a non-zero divisor. */
  function Div(v: Vec3, d: real): Vec3
    requires d != 0.0
  {
    Vec3(v.x / d, v.y / d, v.z / d)
  }

  /** `(1 - w) * a + w * b`: the point a fraction `w` of the way from `a` to `b`. */
  function Lerp(a: Vec3, b: Vec3, w: real): Vec3 {
    Add(Scale(1.0 - w, a), Scale(w, b))
  }

  /** Every point of a sequence moved by the same offset. */
  function TranslateAll(a: seq<Vec3>, v: Vec3): (r: seq<Vec3>)
    ensures |r| == |a|
    ensures forall i :: 0 <= i < |r| ==> r[i] == Add(a[i], v)
  {
    seq(|a|, i requires 0 <= i < |a| => Add(a[i], v))
  }

  /** The segment from `a` to `b` contains `p`. */
  ghost predicate OnSegment(p: Vec3, a: Vec3, b: Vec3) {
    exists w: real :: 0.0 <= w <= 1.0 && p == Lerp(a, b, w)
  }

  lemma ScaleZero(v: Vec3)
    ensures Scale(0.0, v) == Origin
  {
  }

  lemma ScaleOne(v: Vec3)
    ensures Scale(1.0, v) == v
  {
  }

  lemma AddOrigin(v: Vec3)
    ensures Add(v, Origin) == v && Add(Origin, v) == v
  {
  }

  /** `(1 - g) a = a - g a`. */
  lemma ScaleComplement(g: real, a: Vec3)
    ensures Scale(1.0 - g, a) == Sub(a, Scale(g, a))
  {
  }

  /** Scaling distributes over a difference and over a sum. */
  lemma ScaleSub(k: real, b: Vec3, a: Vec3)
    ensures Scale(k, Sub(b, a)) == Sub(Scale(k, b), Scale(k, a))
  {
  }

  lemma ScaleAdd(k: real, a: Vec3, b: Vec3)
    ensures Scale(k, Add(a, b)) == Add(Scale(k, a), Scale(k, b))
  {
  }

  /** `w + (u - v)/d = w - (v - u)/d`. */
  lemma AddFlippedQuotient(w: Vec3, u: Vec3, v: Vec3, d: real)
    requires d != 0.0
    ensures Add(w, Div(Sub(u, v), d)) == Sub(w, Div(Sub(v, u), d))
  {
  }
}
