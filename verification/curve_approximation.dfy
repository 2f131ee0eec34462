/** `QuadraticCurveApproximation`: the data points with one pickable sphere
    each, the cubic Bézier control points derived from them, and the curves
    built from those — the polyline through all control points, one cubic
    Bézier per 4-tuple of control points, and for each cubic the pair of
    quadratic Béziers approximating it. */
module CurveApproximation {
  import opened Geometry
  import opened Outcomes
  import opened CatmullRom
  import opened QuadraticApprox
  import opened Evaluators
  import opened Pickable
  import opened Curves

  /** The subdivision slider's initial value. */
  const DefaultSubdivision: int := 64

  /** The application state. `spheres` are the pickable spheres of the data
      points and `sphereToPoint` maps a sphere's id to its data point's index.
      The pickable registry is threaded through explicitly. */
  datatype Approximation = Approximation(
    dataPoints: seq<Vec3>,
    curveControlPoints: seq<Vec3>,
    fromCatmullRom: bool,
    gamma: real,
    subdivision: int,
    quadEnabled: bool,
    polyline: Curve,
    cubics: seq<Curve>,
    quads: seq<Curve>,
    spheres: seq<Drawable>,
    sphereToPoint: map<nat, nat>,
    registry: Registry)

  // ---- the quadratic curves' subdivision ----

  /** The subdivision the quadratic curves get, as written: the slider value
      shifted right by one. */
  function HalvedSubdivisionAsWritten(s: int): (h: int)
    requires s >= 0
    ensures h >= 0 && 2 * h <= s <= 2 * h + 1
  {
    s / 2
  }

  /** At the slider's lowest setting the shift yields 0. The quadratic
      evaluator then runs a single step whose parameter is `0 / 0` (a NaN in
      single precision) and pushes that point twice; the model's evaluator is
      not defined there. */
  lemma HalvedSubdivisionAsWrittenDividesByZero(q: seq<Vec3>)
    ensures HalvedSubdivisionAsWritten(MinSubdivision) == 0
    ensures !Evaluable(QuadraticCurve, q, HalvedSubdivisionAsWritten(MinSubdivision))
  {
  }

  /** The subdivision handed to the quadratic curves: half the slider value,
      rounded down, but never below one. */
  function QuadSubdivision(s: int): (h: int)
    requires s >= MinSubdivision
    ensures MinSubdivision <= h <= s
    ensures s >= 2 ==> h == HalvedSubdivisionAsWritten(s)
    ensures s <= MaxSubdivision ==> h <= MaxSubdivision / 2
  {
    if s / 2 == 0 then MinSubdivision else s / 2
  }

  /** Every slider value gives the quadratic curves a subdivision their
      evaluator accepts. */
  lemma QuadSubdivisionIsEvaluable(q: seq<Vec3>, s: int)
    requires |q| >= 5 && MinSubdivision <= s
    ensures Evaluable(QuadraticCurve, q, QuadSubdivision(s))
  {
  }

  // ---- invariants ----

  /** Each family holds curves of its own kind, with one quadratic curve per
      cubic. */
  predicate Typed(a: Approximation) {
    && a.polyline.kind == PolylineCurve
    && |a.cubics| == |a.quads|
    && (forall i :: 0 <= i < |a.cubics| ==> a.cubics[i].kind == CubicCurve)
    && (forall i :: 0 <= i < |a.quads| ==> a.quads[i].kind == QuadraticCurve)
  }

  /** The slider value is in range and every curve carries the subdivision
      derived from it. */
  predicate Tuned(a: Approximation) {
    && MinSubdivision <= a.subdivision <= MaxSubdivision
    && (forall i :: 0 <= i < |a.cubics| ==> a.cubics[i].subdivision == a.subdivision)
    && (forall i :: 0 <= i < |a.quads| ==> a.quads[i].subdivision == QuadSubdivision(a.subdivision))
  }

  /** Every cubic holds a 4-tuple and every quadratic pair five points. */
  predicate Loaded(a: Approximation) {
    && (forall i :: 0 <= i < |a.cubics| ==> |a.cubics[i].controlPoints| == 4)
    && (forall i :: 0 <= i < |a.quads| ==> |a.quads[i].controlPoints| == 5)
  }

  /** Every data-point sphere is found in the id map under its own index. */
  predicate SpheresIndexed(a: Approximation) {
    forall i :: 0 <= i < |a.spheres| ==>
      a.spheres[i].id in a.sphereToPoint && a.sphereToPoint[a.spheres[i].id] == i
  }

  /** Every data-point sphere carries an id the counter has already issued. */
  predicate SpheresIssued(a: Approximation) {
    forall i :: 0 <= i < |a.spheres| ==> a.spheres[i].id <= a.registry.counter
  }

  // ---- construction and loading ----

  /** The constructor before the points are loaded: an empty polyline, no
      segment curves, no spheres, Bézier control points taken verbatim, the
      default gamma and subdivision, quadratic curves disabled. */
  function NewApproximation(reg: Registry): (a: Approximation)
    ensures Typed(a) && Tuned(a) && Loaded(a) && SpheresIndexed(a)
    ensures a.cubics == [] && a.spheres == [] && a.dataPoints == []
    ensures a.registry == reg
    ensures !a.fromCatmullRom && !a.quadEnabled
    ensures a.gamma == DefaultGamma && a.subdivision == DefaultSubdivision
    ensures a.polyline.controlPoints == [] && a.polyline.subdivision == PolylineSubdivision
    ensures !a.polyline.editable && a.polyline.enabled
  {
    Approximation([], [], false, DefaultGamma, DefaultSubdivision, false,
                  NewCurve(PolylineCurve, PolylineSubdivision, false),
                  [], [], [], map[], reg)
  }

  /** `convertControlPoints`: the Bézier control points are either the data
      points themselves or the centripetal Catmull-Rom fit of them. */
  function ConvertControlPoints(a: Approximation, m: Metric): (r: Approximation)
    requires a.fromCatmullRom ==> |a.dataPoints| >= 3 && FitRegular(m, a.dataPoints)
    ensures r == a.(curveControlPoints := r.curveControlPoints)
    ensures !a.fromCatmullRom ==> r.curveControlPoints == a.dataPoints
    ensures a.fromCatmullRom ==>
      && |r.curveControlPoints| == 4 * (|a.dataPoints| - 3)
      && forall i :: 0 <= i < |a.dataPoints| - 3 ==>
           Tuple(r.curveControlPoints, i) == WindowCubic(m, a.dataPoints, i)
  {
    if a.fromCatmullRom then a.(curveControlPoints := Fit(m, a.dataPoints))
    else a.(curveControlPoints := a.dataPoints)
  }

  /** How many segments the data points give: every full 4-tuple of data
      points without the fit, one per sliding window of four with it. The
      segments of the fit join end to start. */
  lemma SegmentCount(a: Approximation, m: Metric)
    requires a.fromCatmullRom ==> |a.dataPoints| >= 3 && FitRegular(m, a.dataPoints)
    ensures var c := ConvertControlPoints(a, m).curveControlPoints;
      && (!a.fromCatmullRom ==>
            |c| / 4 == |a.dataPoints| / 4
            && forall i :: 0 <= i < |c| / 4 ==> Tuple(c, i) == a.dataPoints[4 * i .. 4 * i + 4])
      && (a.fromCatmullRom ==>
            |c| / 4 == |a.dataPoints| - 3
            && forall i :: 0 <= i < |c| / 4 - 1 ==> Tuple(c, i)[3] == Tuple(c, i + 1)[0])
  {
    if a.fromCatmullRom {
      FitAnchors(m, a.dataPoints);
    }
  }

  // ---- generateCurves ----

  /** The first half of `generateCurves`: a cubic and a quadratic curve are
      created for each missing segment (with control points that are not
      editable), both families are cut to the segment count, and every
      quadratic curve is enabled or disabled by the configuration flag. */
  function ResizeFamilies(a: Approximation): (r: Approximation)
    requires Typed(a) && Tuned(a)
    ensures r == a.(cubics := r.cubics, quads := r.quads)
    ensures Typed(r) && Tuned(r)
    ensures |r.cubics| == |a.curveControlPoints| / 4
    ensures forall i :: 0 <= i < |r.quads| ==> r.quads[i].enabled == a.quadEnabled
    ensures forall i :: 0 <= i < |r.cubics| && i < |a.cubics| ==>
      r.cubics[i] == a.cubics[i] && r.quads[i] == a.quads[i].(enabled := a.quadEnabled)
    ensures forall i :: |a.cubics| <= i < |r.cubics| ==>
      && r.cubics[i] == NewCurve(CubicCurve, a.subdivision, false)
      && r.quads[i] == NewCurve(QuadraticCurve, QuadSubdivision(a.subdivision), false).(enabled := a.quadEnabled)
  {
    var n := |a.curveControlPoints| / 4;
    var cubics := Resize(a.cubics, n, NewCurve(CubicCurve, a.subdivision, false));
    var quads := Resize(a.quads, n, NewCurve(QuadraticCurve, QuadSubdivision(a.subdivision), false));
    var switched := seq(n, i requires 0 <= i < n => quads[i].(enabled := a.quadEnabled));
    a.(cubics := cubics, quads := switched)
  }

  /** `std::vector::resize`: cut to `n` curves, or padded with copies of
      `pad`. */
  function Resize(curves: seq<Curve>, n: nat, pad: Curve): (r: seq<Curve>)
    ensures |r| == n
    ensures forall i :: 0 <= i < n ==> r[i] == if i < |curves| then curves[i] else pad
  {
    if n <= |curves| then curves[..n] else curves + seq(n - |curves|, _ => pad)
  }

  /** Maps the id of every sphere `row[from..]` to the sphere's index, in
      order; a later sphere with the same id would win. */
  function IndexSpheres(index: map<nat, nat>, row: seq<Drawable>, from: nat): (r: map<nat, nat>)
    requires from <= |row|
    ensures index.Keys <= r.Keys
    ensures forall i :: from <= i < |row| ==> row[i].id in r
    decreases |row| - from
  {
    if from == |row| then index
    else IndexSpheres(index[row[from].id := from], row, from + 1)
  }

  /** A sphere that no later sphere shares its id with is found under its
      own index. */
  lemma {:induction false} IndexSpheresFinds(index: map<nat, nat>, row: seq<Drawable>, from: nat, i: nat)
    requires from <= i < |row| && LastWithId(row, i)
    ensures row[i].id in IndexSpheres(index, row, from) && IndexSpheres(index, row, from)[row[i].id] == i
    decreases |row| - from
  {
    if from < i {
      IndexSpheresFinds(index[row[from].id := from], row, from + 1, i);
    } else {
      assert NotInRow(row, i + 1, row[i].id);
      IndexSpheresKeeps(index[row[i].id := i], row, i + 1, row[i].id);
    }
  }

  /** An entry whose key no sphere of `row[from..]` carries is left as it
      was. */
  lemma {:induction false} IndexSpheresKeeps(index: map<nat, nat>, row: seq<Drawable>, from: nat, key: nat)
    requires from <= |row| && key in index && NotInRow(row, from, key)
    ensures key in IndexSpheres(index, row, from) && IndexSpheres(index, row, from)[key] == index[key]
    decreases |row| - from
  {
    if from < |row| {
      IndexSpheresKeeps(index[row[from].id := from], row, from + 1, key);
    }
  }

  /** No sphere after position `i` has the id of sphere `i`. */
  predicate LastWithId(row: seq<Drawable>, i: int)
    requires 0 <= i < |row|
  {
    forall j :: i < j < |row| ==> row[j].id != row[i].id
  }

  /** No sphere from position `from` on has id `key`. */
  predicate NotInRow(row: seq<Drawable>, from: nat, key: nat) {
    forall i :: from <= i < |row| ==> row[i].id != key
  }

  /** `updateMainControlPoints`: the data-point spheres are fitted to the
      data points (new spheres keep the default selectable flag) and each new
      sphere's id is mapped to its data point. */
  function UpdateMainControlPoints(a: Approximation): (r: Approximation)
    requires a.registry.counter < IdModulus
    ensures r == a.(spheres := r.spheres, sphereToPoint := r.sphereToPoint, registry := r.registry)
    ensures |r.spheres| == |a.dataPoints|
    ensures forall i :: 0 <= i < |a.dataPoints| ==> r.spheres[i].position == a.dataPoints[i]
    ensures forall i :: 0 <= i < |a.dataPoints| && i < |a.spheres| ==> r.spheres[i].id == a.spheres[i].id
    ensures Extends(r.registry, a.registry) && r.registry.counter < IdModulus
    ensures a.sphereToPoint.Keys <= r.sphereToPoint.Keys
  {
    var p := PlaceSpheres(a.spheres, a.dataPoints, a.registry, true);
    var kept := if |a.spheres| < |a.dataPoints| then |a.spheres| else |a.dataPoints|;
    a.(spheres := p.drawables,
       sphereToPoint := IndexSpheres(a.sphereToPoint, p.drawables, kept),
       registry := p.registry)
  }

  /** Until the id counter wraps, every data-point sphere is found under its
      own index afterwards: kept spheres keep their entries, and the new ones
      get fresh ids that collide with no kept sphere. */
  lemma UpdateMainControlPointsIndexesSpheres(a: Approximation)
    requires SpheresIndexed(a) && SpheresIssued(a)
    requires a.registry.counter + |a.dataPoints| < IdModulus
    ensures SpheresIndexed(UpdateMainControlPoints(a)) && SpheresIssued(UpdateMainControlPoints(a))
  {
    var r := UpdateMainControlPoints(a);
    var p := PlaceSpheres(a.spheres, a.dataPoints, a.registry, true);
    var kept := if |a.spheres| < |a.dataPoints| then |a.spheres| else |a.dataPoints|;
    assert r.spheres == p.drawables && r.registry == p.registry;
    assert r.sphereToPoint == IndexSpheres(a.sphereToPoint, p.drawables, kept);
    PlacedRowIndexed(a.sphereToPoint, a.spheres, a.dataPoints, a.registry);
  }

  /** The row-level fact behind `UpdateMainControlPointsIndexesSpheres`. */
  lemma PlacedRowIndexed(index: map<nat, nat>, row: seq<Drawable>, points: seq<Vec3>, reg: Registry)
    requires forall i :: 0 <= i < |row| ==> row[i].id in index && index[row[i].id] == i
    requires forall i :: 0 <= i < |row| ==> row[i].id <= reg.counter
    requires reg.counter + |points| < IdModulus
    ensures
      var p := PlaceSpheres(row, points, reg, true);
      var idx := IndexSpheres(index, p.drawables, if |row| < |points| then |row| else |points|);
      && (forall i :: 0 <= i < |p.drawables| ==> p.drawables[i].id in idx && idx[p.drawables[i].id] == i)
      && (forall i :: 0 <= i < |p.drawables| ==> p.drawables[i].id <= p.registry.counter)
  {
    var p := PlaceSpheres(row, points, reg, true);
    var d := p.drawables;
    var kept := if |row| < |points| then |row| else |points|;
    PlaceSpheresFreshIds(row, points, reg, true);
    assert forall j :: kept <= j < |d| ==> d[j].id == reg.counter + 1 + (j - kept);
    forall i | 0 <= i < |d|
      ensures d[i].id in IndexSpheres(index, d, kept) && IndexSpheres(index, d, kept)[d[i].id] == i
    {
      if i < kept {
        assert d[i].id == row[i].id;
        KeptSphereIndexed(index, d, kept, i, reg.counter);
      } else {
        NewSphereIndexed(index, d, kept, i, reg.counter);
      }
    }
  }

  /** A kept sphere's id is not reissued to a new sphere, so its old entry
      survives. */
  lemma KeptSphereIndexed(index: map<nat, nat>, d: seq<Drawable>, kept: nat, i: nat, base: nat)
    requires i < kept <= |d|
    requires forall j :: kept <= j < |d| ==> d[j].id == base + 1 + (j - kept)
    requires d[i].id <= base && d[i].id in index && index[d[i].id] == i
    ensures d[i].id in IndexSpheres(index, d, kept) && IndexSpheres(index, d, kept)[d[i].id] == i
  {
    assert NotInRow(d, kept, d[i].id);
    IndexSpheresKeeps(index, d, kept, d[i].id);
  }

  /** New spheres carry increasing fresh ids, so each is the last with its id
      and is indexed at its own position. */
  lemma NewSphereIndexed(index: map<nat, nat>, d: seq<Drawable>, kept: nat, i: nat, base: nat)
    requires kept <= i < |d|
    requires forall j :: kept <= j < |d| ==> d[j].id == base + 1 + (j - kept)
    ensures d[i].id in IndexSpheres(index, d, kept) && IndexSpheres(index, d, kept)[d[i].id] == i
  {
    assert LastWithId(d, i);
    IndexSpheresFinds(index, d, kept, i);
  }


  /** `r` is `c` after `setControlPoints(b)` on a cubic: the settings are
      kept, `b` is stored with a sphere per point, and the samples are the
      cubic Bézier of `b` at the curve's subdivision. */
  predicate CubicLoaded(r: Curve, c: Curve, b: seq<Vec3>) {
    && |b| == 4 && c.subdivision >= 1
    && Reloaded(r, c, b)
    && r.samples == CubicSamples(b, c.subdivision)
  }

  /** The same for a quadratic pair and its five control points `q`. */
  predicate QuadLoaded(r: Curve, c: Curve, q: seq<Vec3>) {
    && |q| == 5 && c.subdivision >= 1
    && Reloaded(r, c, q)
    && r.samples == QuadraticSamples(q, c.subdivision)
  }

  /** One iteration of the loop in `updateCurveControlPoints`: the cubic gets
      the 4-tuple `b` and then the quadratic curve gets the five points derived
      from `b`. */
  method SetSegment(cubic: Curve, quad: Curve, b: seq<Vec3>, gamma: real, reg: Registry)
    returns (cubic': Curve, quad': Curve, reg': Registry)
    requires cubic.kind == CubicCurve && cubic.subdivision >= 1
    requires quad.kind == QuadraticCurve && quad.subdivision >= 1
    requires |b| == 4 && reg.counter < IdModulus
    ensures SegmentLoaded(cubic', quad', cubic, quad, b, gamma)
    ensures SameSettings(cubic', cubic) && SameSettings(quad', quad)
    ensures Extends(reg', reg) && reg'.counter < IdModulus
  {
    var c := SetControlPoints(cubic, b, reg);
    var q := SetControlPoints(quad, QuadraticFromCubic(b, gamma), c.value.registry);
    cubic', quad', reg' := c.value.curve, q.value.curve, q.value.registry;
    ExtendsTransitive(reg', c.value.registry, reg);
  }

  /** `updateCurveControlPoints`: with fewer than four Bézier control points
      nothing happens; otherwise the polyline gets all of them, and in
      segment order every cubic gets its 4-tuple and every quadratic curve
      the five points derived from that tuple with the current gamma. */
  method UpdateCurveControlPoints(a: Approximation) returns (r: Approximation)
    requires Typed(a) && Tuned(a)
    requires |a.curveControlPoints| / 4 <= |a.cubics|
    requires a.registry.counter < IdModulus
    ensures |a.curveControlPoints| < 4 ==> r == a
    ensures |r.cubics| == |a.cubics| && |r.quads| == |a.quads|
    ensures r == a.(polyline := r.polyline, cubics := r.cubics, quads := r.quads, registry := r.registry)
    ensures Typed(r) && Tuned(r)
    ensures Extends(r.registry, a.registry) && r.registry.counter < IdModulus
    ensures |a.curveControlPoints| >= 4 ==>
      Reloaded(r.polyline, a.polyline, a.curveControlPoints)
      && r.polyline.samples == DuplicateEnds(a.curveControlPoints)
    ensures forall i :: 0 <= i < |a.curveControlPoints| / 4 ==>
      CubicLoaded(r.cubics[i], a.cubics[i], Tuple(a.curveControlPoints, i))
    ensures forall i :: 0 <= i < |a.curveControlPoints| / 4 ==>
      QuadLoaded(r.quads[i], a.quads[i], QuadraticFromCubic(Tuple(a.curveControlPoints, i), a.gamma))
    ensures forall i :: |a.curveControlPoints| / 4 <= i < |a.cubics| ==>
      r.cubics[i] == a.cubics[i] && r.quads[i] == a.quads[i]
    ensures Valid(a.registry) && NoWrap(r.registry, a.registry) ==> Valid(r.registry)
  {
    var ccp := a.curveControlPoints;
    if |ccp| < 4 {
      ExtendsReflexive(a.registry);
      return a;
    }
    var line := SetControlPoints(a.polyline, ccp, a.registry);
    var cubics, quads, reg := LoadSegments(ccp, a.gamma, a.cubics, a.quads, line.value.registry);
    r := a.(polyline := line.value.curve, cubics := cubics, quads := quads, registry := reg);
    ExtendsTransitive(reg, line.value.registry, a.registry);
    KeepSettings(a, r);
    if Valid(a.registry) && NoWrap(r.registry, a.registry) {
      ExtendsKeepsValid(r.registry, a.registry);
    }
  }

  /** Segment `i` after the loop: the cubic holds the 4-tuple `b` and the
      quadratic curve the five points derived from `b` with `gamma`. */
  predicate SegmentLoaded(cubic': Curve, quad': Curve, cubic: Curve, quad: Curve, b: seq<Vec3>, gamma: real) {
    && |b| == 4
    && CubicLoaded(cubic', cubic, b)
    && QuadLoaded(quad', quad, QuadraticFromCubic(b, gamma))
  }

  /** The loop of `updateCurveControlPoints`: for every segment `i` in
      order, cubic `i` gets the `i`-th 4-tuple of `ccp` and quadratic curve
      `i` the five points derived from it with `gamma`. Curves past the last
      segment are left alone. */
  method LoadSegments(ccp: seq<Vec3>, gamma: real, cubics0: seq<Curve>, quads0: seq<Curve>, reg0: Registry)
    returns (cubics: seq<Curve>, quads: seq<Curve>, reg: Registry)
    requires |ccp| / 4 <= |cubics0| == |quads0|
    requires forall i :: 0 <= i < |cubics0| ==> cubics0[i].kind == CubicCurve && cubics0[i].subdivision >= 1
    requires forall i :: 0 <= i < |quads0| ==> quads0[i].kind == QuadraticCurve && quads0[i].subdivision >= 1
    requires reg0.counter < IdModulus
    ensures |cubics| == |cubics0| && |quads| == |quads0|
    ensures forall i :: 0 <= i < |cubics| ==> SameSettings(cubics[i], cubics0[i]) && SameSettings(quads[i], quads0[i])
    ensures Extends(reg, reg0) && reg.counter < IdModulus
    ensures forall i :: 0 <= i < |ccp| / 4 ==>
      SegmentLoaded(cubics[i], quads[i], cubics0[i], quads0[i], Tuple(ccp, i), gamma)
    ensures forall i :: |ccp| / 4 <= i < |cubics| ==> cubics[i] == cubics0[i] && quads[i] == quads0[i]
  {
    cubics, quads, reg := cubics0, quads0, reg0;
    ExtendsReflexive(reg0);
    var n := |ccp| / 4;
    var idx := 0;
    while idx < n
      invariant 0 <= idx <= n
      invariant |cubics| == |cubics0| && |quads| == |quads0|
      invariant Extends(reg, reg0) && reg.counter < IdModulus
      invariant forall i :: 0 <= i < |cubics| ==> SameSettings(cubics[i], cubics0[i]) && SameSettings(quads[i], quads0[i])
      invariant forall i :: 0 <= i < idx ==>
        SegmentLoaded(cubics[i], quads[i], cubics0[i], quads0[i], Tuple(ccp, i), gamma)
      invariant forall i :: idx <= i < |cubics| ==> cubics[i] == cubics0[i] && quads[i] == quads0[i]
    {
      var cubic, quad, next := SetSegment(cubics[idx], quads[idx], Tuple(ccp, idx), gamma, reg);
      ghost var before, quadsBefore := cubics, quads;
      cubics := cubics[idx := cubic];
      quads := quads[idx := quad];
      forall i | 0 <= i < |cubics| && i != idx
        ensures cubics[i] == before[i] && quads[i] == quadsBefore[i]
      {
      }
      forall i | 0 <= i < idx
        ensures SegmentLoaded(cubics[i], quads[i], cubics0[i], quads0[i], Tuple(ccp, i), gamma)
      {
        assert cubics[i] == before[i] && quads[i] == quadsBefore[i];
      }
      ExtendsTransitive(next, reg, reg0);
      reg := next;
      idx := idx + 1;
    }
  }

  /** Curves that kept their settings keep the approximation typed and
      tuned. */
  lemma KeepSettings(a: Approximation, r: Approximation)
    requires Typed(a) && Tuned(a)
    requires r.polyline.kind == a.polyline.kind && r.subdivision == a.subdivision
    requires |r.cubics| == |a.cubics| && |r.quads| == |a.quads|
    requires forall i :: 0 <= i < |r.cubics| ==> SameSettings(r.cubics[i], a.cubics[i])
    requires forall i :: 0 <= i < |r.quads| ==> SameSettings(r.quads[i], a.quads[i])
    ensures Typed(r) && Tuned(r)
  {
  }

  /** `c` and `d` agree on everything `setControlPoints` leaves alone that
      the invariants need: kind, subdivision and enabled flag. */
  predicate SameSettings(c: Curve, d: Curve) {
    c.kind == d.kind && c.subdivision == d.subdivision && c.enabled == d.enabled
  }

  /** Every quadratic curve holds the five points derived from its cubic's
      control points with the current gamma. */
  predicate Approximates(a: Approximation) {
    forall i :: 0 <= i < |a.cubics| && i < |a.quads| && |a.cubics[i].controlPoints| == 4 ==>
      a.quads[i].controlPoints == QuadraticFromCubic(a.cubics[i].controlPoints, a.gamma)
  }

  /** Consecutive cubics share their joining control point. */
  predicate Chained(a: Approximation) {
    forall i :: 0 <= i < |a.cubics| - 1 && |a.cubics[i].controlPoints| == 4 && |a.cubics[i + 1].controlPoints| == 4 ==>
      a.cubics[i].controlPoints[3] == a.cubics[i + 1].controlPoints[0]
  }

  /** `generateCurves`: resize the families, then update the data-point
      spheres and the curves' control points. Afterwards there is exactly one
      cubic and one quadratic curve per 4-tuple of Bézier control points, and
      each holds its tuple or the five points derived from it. */
  method GenerateCurves(a: Approximation) returns (r: Approximation)
    requires Typed(a) && Tuned(a)
    requires a.registry.counter < IdModulus
    ensures Typed(r) && Tuned(r) && Loaded(r) && Approximates(r)
    ensures r.dataPoints == a.dataPoints && r.curveControlPoints == a.curveControlPoints
    ensures r.fromCatmullRom == a.fromCatmullRom && r.gamma == a.gamma
    ensures r.subdivision == a.subdivision && r.quadEnabled == a.quadEnabled
    ensures |r.cubics| == |a.curveControlPoints| / 4
    ensures forall i :: 0 <= i < |r.cubics| ==> r.cubics[i].controlPoints == Tuple(a.curveControlPoints, i)
    ensures forall i :: 0 <= i < |r.quads| ==> r.quads[i].enabled == a.quadEnabled
    ensures |r.spheres| == |a.dataPoints|
    ensures forall i :: 0 <= i < |a.dataPoints| ==> r.spheres[i].position == a.dataPoints[i]
    ensures Extends(r.registry, a.registry) && r.registry.counter < IdModulus
    ensures SpheresIndexed(a) && SpheresIssued(a) && a.registry.counter + |a.dataPoints| < IdModulus ==>
      SpheresIndexed(r)
    ensures SpheresIssued(a) && NoWrap(r.registry, a.registry) ==> SpheresIssued(r)
    ensures r == a.(polyline := r.polyline, cubics := r.cubics, quads := r.quads, spheres := r.spheres,
                    sphereToPoint := r.sphereToPoint, registry := r.registry)
    ensures Valid(a.registry) && NoWrap(r.registry, a.registry) ==> Valid(r.registry)
  {
    var main := PrepareCurves(a);
    r := UpdateCurveControlPoints(main);
    ExtendsTransitive(r.registry, main.registry, a.registry);
    if SpheresIssued(a) && NoWrap(r.registry, a.registry) {
      NoWrapSplits(r.registry, main.registry, a.registry);
      assert SpheresIssued(main);
    }
    LoadedSegmentsHoldTuples(main, r);
    if Valid(a.registry) && NoWrap(r.registry, a.registry) {
      ExtendsKeepsValid(r.registry, a.registry);
    }
  }

  /** Once every segment is loaded, each cubic holds its 4-tuple and each
      quadratic curve the five points derived from it. */
  lemma LoadedSegmentsHoldTuples(main: Approximation, r: Approximation)
    requires |r.cubics| == |r.quads| == |main.cubics| == |main.quads| == |main.curveControlPoints| / 4
    requires forall i :: 0 <= i < |main.curveControlPoints| / 4 ==>
      CubicLoaded(r.cubics[i], main.cubics[i], Tuple(main.curveControlPoints, i))
    requires forall i :: 0 <= i < |main.curveControlPoints| / 4 ==>
      QuadLoaded(r.quads[i], main.quads[i], QuadraticFromCubic(Tuple(main.curveControlPoints, i), main.gamma))
    ensures forall i :: 0 <= i < |r.cubics| ==>
      && |r.cubics[i].controlPoints| == 4 && |r.quads[i].controlPoints| == 5
      && r.cubics[i].controlPoints == Tuple(main.curveControlPoints, i)
      && r.quads[i].controlPoints == QuadraticFromCubic(Tuple(main.curveControlPoints, i), main.gamma)
  {
    var ccp := main.curveControlPoints;
    forall i | 0 <= i < |r.cubics|
      ensures |r.cubics[i].controlPoints| == 4 && |r.quads[i].controlPoints| == 5
      ensures r.cubics[i].controlPoints == Tuple(ccp, i)
      ensures r.quads[i].controlPoints == QuadraticFromCubic(Tuple(ccp, i), main.gamma)
    {
      assert CubicLoaded(r.cubics[i], main.cubics[i], Tuple(ccp, i));
      assert QuadLoaded(r.quads[i], main.quads[i], QuadraticFromCubic(Tuple(ccp, i), main.gamma));
    }
  }

  /** The part of `generateCurves` before the curves get their control
      points: `ResizeFamilies` followed by `UpdateMainControlPoints`. */
  method PrepareCurves(a: Approximation) returns (r: Approximation)
    requires Typed(a) && Tuned(a)
    requires a.registry.counter < IdModulus
    ensures r == a.(cubics := r.cubics, quads := r.quads, spheres := r.spheres,
                    sphereToPoint := r.sphereToPoint, registry := r.registry)
    ensures Typed(r) && Tuned(r)
    ensures |r.cubics| == |a.curveControlPoints| / 4
    ensures forall i :: 0 <= i < |r.quads| ==> r.quads[i].enabled == a.quadEnabled
    ensures |r.spheres| == |a.dataPoints|
    ensures forall i :: 0 <= i < |a.dataPoints| ==> r.spheres[i].position == a.dataPoints[i]
    ensures Extends(r.registry, a.registry) && r.registry.counter < IdModulus
    ensures SpheresIndexed(a) && SpheresIssued(a) && a.registry.counter + |a.dataPoints| < IdModulus ==>
      SpheresIndexed(r)
    ensures SpheresIssued(a) && NoWrap(r.registry, a.registry) ==> SpheresIssued(r)
    ensures Valid(a.registry) && NoWrap(r.registry, a.registry) ==> Valid(r.registry)
  {
    var sized := ResizeFamilies(a);
    r := UpdateMainControlPoints(sized);
    assert r.cubics == sized.cubics && r.quads == sized.quads;
    if SpheresIssued(sized) && NoWrap(r.registry, sized.registry) {
      PlaceSpheresIssued(sized.spheres, sized.dataPoints, sized.registry, true);
    }
    if SpheresIndexed(sized) && SpheresIssued(sized) && sized.registry.counter + |sized.dataPoints| < IdModulus {
      UpdateMainControlPointsIndexesSpheres(sized);
    }
    if Valid(a.registry) && NoWrap(r.registry, a.registry) {
      ExtendsKeepsValid(r.registry, a.registry);
    }
  }

  /** `loadControlPoints` after the file has been read into `points`. */
  method LoadControlPoints(a: Approximation, points: seq<Vec3>, m: Metric) returns (r: Approximation)
    requires Typed(a) && Tuned(a)
    requires a.registry.counter < IdModulus
    requires a.fromCatmullRom ==> |points| >= 3 && FitRegular(m, points)
    ensures Typed(r) && Tuned(r) && Loaded(r) && Approximates(r)
    ensures r.dataPoints == points && |r.spheres| == |points|
    ensures r.fromCatmullRom == a.fromCatmullRom && r.gamma == a.gamma
    ensures r.subdivision == a.subdivision && r.quadEnabled == a.quadEnabled
    ensures r.curveControlPoints == ConvertControlPoints(a.(dataPoints := points), m).curveControlPoints
    ensures |r.cubics| == |r.curveControlPoints| / 4
    ensures forall i :: 0 <= i < |r.quads| ==> r.quads[i].enabled == a.quadEnabled
    ensures SpheresIndexed(a) && SpheresIssued(a) && a.registry.counter + |points| < IdModulus ==>
      SpheresIndexed(r)
    ensures SpheresIssued(a) && NoWrap(r.registry, a.registry) ==> SpheresIssued(r)
    ensures r.fromCatmullRom == a.fromCatmullRom && Extends(r.registry, a.registry) && r.registry.counter < IdModulus
    ensures Valid(a.registry) && NoWrap(r.registry, a.registry) ==> Valid(r.registry)
  {
    var converted := ConvertControlPoints(a.(dataPoints := points), m);
    r := GenerateCurves(converted);
    if Valid(a.registry) && NoWrap(r.registry, a.registry) {
      ExtendsKeepsValid(r.registry, a.registry);
    }
  }

  /** Start-up: the constructor followed by loading `points`. Without the
      fit there is one segment per full 4-tuple of data points, all quadratic
      curves start disabled, and every data point has a sphere found under its
      index. */
  method Startup(points: seq<Vec3>, m: Metric, reg: Registry) returns (r: Approximation)
    requires reg.counter + |points| < IdModulus
    ensures r.dataPoints == points && !r.fromCatmullRom
    ensures Typed(r) && Tuned(r) && Loaded(r) && Approximates(r)
    ensures |r.cubics| == |points| / 4
    ensures forall i :: 0 <= i < |r.quads| ==> !r.quads[i].enabled
    ensures |r.spheres| == |points| && SpheresIndexed(r)
    ensures Extends(r.registry, reg) && r.registry.counter < IdModulus
    ensures NoWrap(r.registry, reg) ==> SpheresIssued(r)
    ensures Valid(reg) && NoWrap(r.registry, reg) ==> Valid(r.registry)
  {
    var initial := NewApproximation(reg);
    assert SpheresIssued(initial);
    r := LoadControlPoints(initial, points, m);
    assert r.curveControlPoints == points;
    if Valid(reg) && NoWrap(r.registry, reg) {
      ExtendsKeepsValid(r.registry, reg);
    }
  }

  // ---- editing ----

  /** `setControlPoint`: the picked sphere's data point moves to `point`. The
      internal assertion on an unknown id (or a stale index) is the error. */
  function SetControlPoint(a: Approximation, selectedIdx: nat, point: Vec3): (r: Result<Approximation>)
    ensures r.Err? <==> !(selectedIdx in a.sphereToPoint && a.sphereToPoint[selectedIdx] < |a.dataPoints|)
    ensures r.Err? ==> r.error == UnknownDrawable(selectedIdx)
    ensures r.Ok? ==>
      && r.value == a.(dataPoints := r.value.dataPoints)
      && |r.value.dataPoints| == |a.dataPoints|
      && r.value.dataPoints[a.sphereToPoint[selectedIdx]] == point
      && forall j :: 0 <= j < |a.dataPoints| && j != a.sphereToPoint[selectedIdx] ==>
           r.value.dataPoints[j] == a.dataPoints[j]
  {
    if selectedIdx in a.sphereToPoint && a.sphereToPoint[selectedIdx] < |a.dataPoints| then
      var i := a.sphereToPoint[selectedIdx];
      Ok(a.(dataPoints := a.dataPoints[i := point]))
    else Err(UnknownDrawable(selectedIdx))
  }

  /** Dragging the sphere of data point `i` moves exactly data point `i`. */
  lemma MovingASphereMovesItsPoint(a: Approximation, i: int, point: Vec3)
    requires SpheresIndexed(a) && |a.spheres| == |a.dataPoints|
    requires 0 <= i < |a.spheres|
    ensures SetControlPoint(a, a.spheres[i].id, point) == Ok(a.(dataPoints := a.dataPoints[i := point]))
  {
  }

  // ---- computeCurves ----

  /** The loop body of `computeCurves` for one family: each curve gets the
      subdivision `s` and is recomputed, so its samples become those of its
      kind's evaluator at `s`. */
  function RecomputeAll(curves: seq<Curve>, s: int): (r: seq<Curve>)
    requires s >= MinSubdivision
    requires forall i :: 0 <= i < |curves| ==>
      && (curves[i].kind == CubicCurve ==> |curves[i].controlPoints| == 4)
      && (curves[i].kind == QuadraticCurve ==> |curves[i].controlPoints| >= 5)
    ensures |r| == |curves|
    ensures forall i :: 0 <= i < |r| ==>
      r[i] == curves[i].(subdivision := s, samples := r[i].samples, dirty := true)
    ensures forall i :: 0 <= i < |r| && curves[i].kind == CubicCurve ==>
      r[i].samples == CubicSamples(curves[i].controlPoints, s)
    ensures forall i :: 0 <= i < |r| && curves[i].kind == QuadraticCurve ==>
      r[i].samples == QuadraticSamples(curves[i].controlPoints, s)
  {
    seq(|curves|, i requires 0 <= i < |curves| && (curves[i].kind == CubicCurve ==> |curves[i].controlPoints| == 4)
                               && (curves[i].kind == QuadraticCurve ==> |curves[i].controlPoints| >= 5) =>
      RecomputeCurve(curves[i].(subdivision := s)).value)
  }

  /** `computeCurves`: the polyline is recomputed, the cubics at the slider's
      subdivision and the quadratic curves at `QuadSubdivision` of it (the
      halving, corrected to at least 1). */
  function ComputeCurves(a: Approximation): (r: Approximation)
    requires Typed(a) && Loaded(a)
    requires MinSubdivision <= a.subdivision <= MaxSubdivision
    ensures r == a.(polyline := r.polyline, cubics := r.cubics, quads := r.quads)
    ensures |r.cubics| == |a.cubics| && |r.quads| == |a.quads|
    ensures Typed(r) && Tuned(r) && Loaded(r)
    ensures r.polyline == a.polyline.(samples := r.polyline.samples, dirty := true)
    ensures |a.polyline.controlPoints| >= 1 ==> r.polyline.samples == DuplicateEnds(a.polyline.controlPoints)
    ensures forall i :: 0 <= i < |r.cubics| ==>
      r.cubics[i] == a.cubics[i].(subdivision := a.subdivision,
                                  samples := CubicSamples(a.cubics[i].controlPoints, a.subdivision),
                                  dirty := true)
    ensures forall i :: 0 <= i < |r.quads| ==>
      r.quads[i] == a.quads[i].(subdivision := QuadSubdivision(a.subdivision),
                                samples := QuadraticSamples(a.quads[i].controlPoints, QuadSubdivision(a.subdivision)),
                                dirty := true)
  {
    var line := RecomputeCurve(a.polyline).value;
    a.(polyline := line,
       cubics := RecomputeAll(a.cubics, a.subdivision),
       quads := RecomputeAll(a.quads, QuadSubdivision(a.subdivision)))
  }

  // ---- end-to-end ----

  /** Once every quadratic curve holds the points derived from its cubic,
      recomputing the curves draws each quadratic pair from the same first
      point to the same last point as its cubic. */
  lemma ApproximationSharesEnds(g: Approximation)
    requires Typed(g) && Loaded(g) && Approximates(g)
    requires MinSubdivision <= g.subdivision <= MaxSubdivision
    ensures var r := ComputeCurves(g);
      forall i :: 0 <= i < |r.cubics| ==>
        && r.quads[i].samples[0] == r.cubics[i].samples[0]
        && Last(r.quads[i].samples) == Last(r.cubics[i].samples)
  {
    var r := ComputeCurves(g);
    var s := g.subdivision;
    forall i | 0 <= i < |r.cubics|
      ensures r.quads[i].samples[0] == r.cubics[i].samples[0]
      ensures Last(r.quads[i].samples) == Last(r.cubics[i].samples)
    {
      var b := g.cubics[i].controlPoints;
      assert g.quads[i].controlPoints == QuadraticFromCubic(b, g.gamma);
      SegmentSharesEnds(b, g.gamma, s);
    }
  }

  /** One segment: the samples of the quadratic pair derived from `b` start
      and end where the cubic's samples do. */
  lemma SegmentSharesEnds(b: seq<Vec3>, gamma: real, s: int)
    requires |b| == 4 && MinSubdivision <= s <= MaxSubdivision
    ensures var c := CubicSamples(b, s);
      var p := QuadraticSamples(QuadraticFromCubic(b, gamma), QuadSubdivision(s));
      && |c| == s + 3 && |p| == QuadSubdivision(s) + 3
      && p[0] == c[0] && Last(p) == Last(c)
  {
    var q := QuadraticFromCubic(b, gamma);
    CubicSamplesEnds(b, s);
    QuadraticSamplesLandmarks(q, QuadSubdivision(s));
  }

  /** When consecutive cubics share their joining control point, their
      recomputed samples join too: the last sample of one is the first of the
      next, so the drawn spline has no gaps. */
  lemma ChainedCurvesJoin(g: Approximation)
    requires Typed(g) && Loaded(g) && Chained(g)
    requires MinSubdivision <= g.subdivision <= MaxSubdivision
    ensures var r := ComputeCurves(g);
      forall i :: 0 <= i < |r.cubics| - 1 ==> Last(r.cubics[i].samples) == r.cubics[i + 1].samples[0]
  {
    var r := ComputeCurves(g);
    forall i | 0 <= i < |r.cubics| - 1
      ensures Last(r.cubics[i].samples) == r.cubics[i + 1].samples[0]
    {
      CubicSamplesEnds(g.cubics[i].controlPoints, g.subdivision);
      CubicSamplesEnds(g.cubics[i + 1].controlPoints, g.subdivision);
    }
  }

  /** Toggling the Catmull-Rom fit: the control points are converted, the
      curves generated and computed. Each quadratic pair then starts and ends
      where its cubic does, and with the fit the cubics form a spline without
      gaps. */
  method RebuildCurves(a: Approximation, m: Metric) returns (r: Approximation)
    requires Typed(a) && Tuned(a)
    requires a.registry.counter < IdModulus
    requires a.fromCatmullRom ==> |a.dataPoints| >= 3 && FitRegular(m, a.dataPoints)
    ensures Typed(r) && Tuned(r) && Loaded(r)
    ensures !a.fromCatmullRom ==> |r.cubics| == |a.dataPoints| / 4
    ensures a.fromCatmullRom ==> |r.cubics| == |a.dataPoints| - 3
    ensures |r.cubics| == |r.curveControlPoints| / 4 && |r.quads| == |r.cubics|
    ensures forall i :: 0 <= i < |r.cubics| ==>
      r.cubics[i].samples == CubicSamples(Tuple(r.curveControlPoints, i), a.subdivision)
    ensures forall i :: 0 <= i < |r.quads| ==>
      r.quads[i].samples
      == QuadraticSamples(QuadraticFromCubic(Tuple(r.curveControlPoints, i), a.gamma), QuadSubdivision(a.subdivision))
    ensures forall i :: 0 <= i < |r.cubics| ==>
      && |r.cubics[i].samples| == a.subdivision + 3
      && |r.quads[i].samples| == QuadSubdivision(a.subdivision) + 3
      && r.quads[i].samples[0] == r.cubics[i].samples[0]
      && Last(r.quads[i].samples) == Last(r.cubics[i].samples)
    ensures a.fromCatmullRom ==>
      forall i :: 0 <= i < |r.cubics| - 1 ==> Last(r.cubics[i].samples) == r.cubics[i + 1].samples[0]
    ensures r == a.(polyline := r.polyline, cubics := r.cubics, quads := r.quads,
                    curveControlPoints := r.curveControlPoints, spheres := r.spheres,
                    sphereToPoint := r.sphereToPoint, registry := r.registry)
    ensures Extends(r.registry, a.registry) && r.registry.counter < IdModulus
    ensures |r.spheres| == |a.dataPoints|
    ensures forall i :: 0 <= i < |a.dataPoints| ==> r.spheres[i].position == a.dataPoints[i]
    ensures SpheresIndexed(a) && SpheresIssued(a) && a.registry.counter + |a.dataPoints| < IdModulus ==>
      SpheresIndexed(r)
    ensures SpheresIssued(a) && NoWrap(r.registry, a.registry) ==> SpheresIssued(r)
    ensures Valid(a.registry) && NoWrap(r.registry, a.registry) ==> Valid(r.registry)
  {
    var g := RegenerateCurves(a, m);
    r := ComputeGenerated(g);
    if Valid(a.registry) && NoWrap(r.registry, a.registry) {
      ExtendsKeepsValid(r.registry, a.registry);
    }
  }

  /** The first two steps of the toggle: the control points are converted
      and the curves generated from them. */
  method RegenerateCurves(a: Approximation, m: Metric) returns (g: Approximation)
    requires Typed(a) && Tuned(a)
    requires a.registry.counter < IdModulus
    requires a.fromCatmullRom ==> |a.dataPoints| >= 3 && FitRegular(m, a.dataPoints)
    ensures Typed(g) && Tuned(g) && Loaded(g) && Approximates(g)
    ensures !a.fromCatmullRom ==> |g.cubics| == |a.dataPoints| / 4
    ensures a.fromCatmullRom ==> |g.cubics| == |a.dataPoints| - 3 && Chained(g)
    ensures |g.cubics| == |g.curveControlPoints| / 4
    ensures forall i :: 0 <= i < |g.cubics| ==> g.cubics[i].controlPoints == Tuple(g.curveControlPoints, i)
    ensures g == a.(polyline := g.polyline, cubics := g.cubics, quads := g.quads,
                    curveControlPoints := g.curveControlPoints, spheres := g.spheres,
                    sphereToPoint := g.sphereToPoint, registry := g.registry)
    ensures Extends(g.registry, a.registry) && g.registry.counter < IdModulus
    ensures |g.spheres| == |a.dataPoints|
    ensures forall i :: 0 <= i < |a.dataPoints| ==> g.spheres[i].position == a.dataPoints[i]
    ensures SpheresIndexed(a) && SpheresIssued(a) && a.registry.counter + |a.dataPoints| < IdModulus ==>
      SpheresIndexed(g)
    ensures SpheresIssued(a) && NoWrap(g.registry, a.registry) ==> SpheresIssued(g)
    ensures Valid(a.registry) && NoWrap(g.registry, a.registry) ==> Valid(g.registry)
  {
    var converted := ConvertControlPoints(a, m);
    SegmentCount(a, m);
    g := GenerateCurves(converted);
    assert a.fromCatmullRom ==> Chained(g);
    if Valid(a.registry) && NoWrap(g.registry, a.registry) {
      ExtendsKeepsValid(g.registry, a.registry);
    }
  }

  /** `computeCurves` on freshly generated curves: every curve's samples are
      those of its 4-tuple (or of the tuple's quadratic pair), each pair
      starts and ends where its cubic does, and chained cubics join. */
  method ComputeGenerated(g: Approximation) returns (r: Approximation)
    requires Typed(g) && Tuned(g) && Loaded(g) && Approximates(g)
    requires |g.cubics| == |g.curveControlPoints| / 4
    requires forall i :: 0 <= i < |g.cubics| ==> g.cubics[i].controlPoints == Tuple(g.curveControlPoints, i)
    ensures r == g.(polyline := r.polyline, cubics := r.cubics, quads := r.quads)
    ensures Typed(r) && Tuned(r) && Loaded(r)
    ensures |r.cubics| == |r.curveControlPoints| / 4 && |r.quads| == |r.cubics|
    ensures forall i :: 0 <= i < |r.cubics| ==>
      r.cubics[i].samples == CubicSamples(Tuple(r.curveControlPoints, i), g.subdivision)
    ensures forall i :: 0 <= i < |r.quads| ==>
      r.quads[i].samples
      == QuadraticSamples(QuadraticFromCubic(Tuple(r.curveControlPoints, i), g.gamma), QuadSubdivision(g.subdivision))
    ensures forall i :: 0 <= i < |r.cubics| ==>
      && |r.cubics[i].samples| == g.subdivision + 3
      && |r.quads[i].samples| == QuadSubdivision(g.subdivision) + 3
      && r.quads[i].samples[0] == r.cubics[i].samples[0]
      && Last(r.quads[i].samples) == Last(r.cubics[i].samples)
    ensures Chained(g) ==>
      forall i :: 0 <= i < |r.cubics| - 1 ==> Last(r.cubics[i].samples) == r.cubics[i + 1].samples[0]
  {
    r := ComputeCurves(g);
    ApproximationSharesEnds(g);
    if Chained(g) {
      ChainedCurvesJoin(g);
    }
  }

  function Last(s: seq<Vec3>): Vec3
    requires |s| >= 1
  {
    s[|s| - 1]
  }
}
