/** The `Curve` base class: control points with one pickable sphere each,
    the sample points produced by the kind's evaluator, and the dirty flag
    that tells `draw` to upload the samples into the line vertex buffer. */
module Curves {
  import opened Geometry
  import opened Outcomes
  import opened Evaluators
  import opened Pickable

  /** A control-point sphere: its pickable object's id and the translation
      part of its transformation. */
  datatype Drawable = Drawable(id: nat, position: Vec3)

  /** The state of one curve. `buffer` and `meshCount` are what the line
      mesh last received (`setData`, `setCount`). */
  datatype Curve = Curve(
    kind: CurveKind,
    subdivision: int,
    enabled: bool,
    dirty: bool,
    editable: bool,
    controlPoints: seq<Vec3>,
    drawables: seq<Drawable>,
    samples: seq<Vec3>,
    buffer: seq<Vec3>,
    meshCount: int)

  /** The vertex buffer holds the current samples whenever the dirty flag is
      clear. */
  predicate Synced(c: Curve) {
    !c.dirty ==> c.buffer == c.samples && c.meshCount == |c.samples|
  }

  /** A freshly constructed curve: enabled, clean, with no control points,
      spheres or samples. */
  function NewCurve(kind: CurveKind, subdivision: int, editable: bool): (c: Curve)
    ensures c.kind == kind && c.subdivision == subdivision && c.editable == editable
    ensures c.enabled && !c.dirty
    ensures c.controlPoints == [] && c.drawables == [] && c.samples == []
    ensures Synced(c)
  {
    Curve(kind, subdivision, true, false, editable, [], [], [], [], 0)
  }

  /** `recomputeCurve`: the samples are cleared, rebuilt by the kind's
      evaluator, and marked dirty. The cubic evaluator's fatal error on a
      wrong control-point count is the error result. */
  function RecomputeCurve(c: Curve): (r: Result<Curve>)
    requires Evaluable(c.kind, c.controlPoints, c.subdivision)
    ensures r.Err? <==> c.kind == CubicCurve && |c.controlPoints| != 4
    ensures r.Err? ==> r.error == WrongControlPointCount(4, |c.controlPoints|)
    ensures r.Ok? ==> r.value == c.(samples := r.value.samples, dirty := true) && Synced(r.value)
    ensures r.Ok? && c.kind == CubicCurve ==> r.value.samples == CubicSamples(c.controlPoints, c.subdivision)
    ensures r.Ok? && c.kind == QuadraticCurve ==> r.value.samples == QuadraticSamples(c.controlPoints, c.subdivision)
    ensures r.Ok? && c.kind == PolylineCurve && |c.controlPoints| == 0 ==> r.value.samples == []
    ensures r.Ok? && c.kind == PolylineCurve && |c.controlPoints| >= 1 ==> r.value.samples == DuplicateEnds(c.controlPoints)
  {
    match ComputeLines(c.kind, c.controlPoints, c.subdivision, [])
    case Err(e) => Err(e)
    case Ok(points) => Ok(c.(samples := points, dirty := true))
  }

  /** Because the samples are cleared first, the old samples play no part:
      nothing accumulates across recomputes. */
  lemma RecomputeIgnoresOldSamples(c: Curve, junk: seq<Vec3>)
    requires Evaluable(c.kind, c.controlPoints, c.subdivision)
    ensures RecomputeCurve(c.(samples := junk)) == RecomputeCurve(c)
  {
  }

  /** Recomputing twice gives the same curve as recomputing once. */
  lemma RecomputeIsIdempotent(c: Curve)
    requires Evaluable(c.kind, c.controlPoints, c.subdivision)
    requires RecomputeCurve(c).Ok?
    ensures RecomputeCurve(RecomputeCurve(c).value) == RecomputeCurve(c)
  {
    var d := RecomputeCurve(c).value;
    assert d.(samples := c.samples, dirty := c.dirty) == c;
    RecomputeIgnoresOldSamples(d.(dirty := c.dirty), d.samples);
    assert RecomputeCurve(d) == RecomputeCurve(d.(dirty := c.dirty));
  }

  /** The part of `draw` that touches the curve's state: nothing happens for
      a disabled curve or one without samples; otherwise a dirty curve
      uploads its samples, sets the mesh count and becomes clean. */
  function Draw(c: Curve): (r: Curve)
    ensures r == c.(buffer := r.buffer, meshCount := r.meshCount, dirty := r.dirty)
    ensures !c.enabled || |c.samples| == 0 || !c.dirty ==> r == c
    ensures c.enabled && |c.samples| > 0 ==> !r.dirty
    ensures c.enabled && |c.samples| > 0 && c.dirty ==> r.buffer == c.samples && r.meshCount == |c.samples|
    ensures Synced(c) ==> Synced(r)
    ensures Synced(c) && c.enabled && |c.samples| > 0 ==> r.buffer == c.samples && r.meshCount == |c.samples|
  {
    if !c.enabled || |c.samples| == 0 then c
    else if c.dirty then c.(buffer := c.samples, meshCount := |c.samples|, dirty := false)
    else c
  }

  /** A second draw without a recompute in between changes nothing: the
      samples are uploaded at most once per recompute. */
  lemma DrawIsIdempotent(c: Curve)
    ensures Draw(Draw(c)) == Draw(c)
  {
  }

  /** A row of spheres after it was fitted to a new list of points, and the
      registry that holds the spheres created for it. */
  datatype Placement = Placement(drawables: seq<Drawable>, registry: Registry)

  /** Fits a row of spheres to `points`: the row is cut to the new count
      (dropped spheres are not destroyed and stay registered), a sphere is
      created for every new index, and sphere `i` is moved to point `i`. The
      curves and the main data points manage their spheres this way. */
  function PlaceSpheres(row: seq<Drawable>, points: seq<Vec3>, reg: Registry, selectable: bool): (r: Placement)
    requires reg.counter < IdModulus
    ensures |r.drawables| == |points|
    ensures forall i :: 0 <= i < |points| ==> r.drawables[i].position == points[i]
    ensures forall i :: 0 <= i < |points| && i < |row| ==> r.drawables[i].id == row[i].id
    ensures
      var g := r.registry;
      var created := if |points| > |row| then |points| - |row| else 0;
      && |g.objects| == |reg.objects| + created
      && Extends(g, reg)
      && g.counter < IdModulus
      && (forall i :: |row| <= i < |points| ==>
            g.objects[|reg.objects| + (i - |row|)] == PickableObject(r.drawables[i].id, selectable, false, true))
  {
    var created := if |points| > |row| then |points| - |row| else 0;
    var kept := |points| - created;
    var spheres := MakeSpheres(reg, created, selectable);
    var drawables := seq(|points|, i requires 0 <= i < |points| =>
      Drawable(if i < kept then row[i].id else spheres.ids[i - kept], points[i]));
    Placement(drawables, spheres.registry)
  }

  /** Until the id counter wraps, the spheres created for the new indices get
      the next ids in order, all larger than every id issued before, and the
      registry stays valid. */
  lemma PlaceSpheresFreshIds(row: seq<Drawable>, points: seq<Vec3>, reg: Registry, selectable: bool)
    requires reg.counter + (if |points| > |row| then |points| - |row| else 0) < IdModulus
    ensures
      var r := PlaceSpheres(row, points, reg, selectable);
      var created := if |points| > |row| then |points| - |row| else 0;
      && r.registry.counter == reg.counter + created
      && (forall i :: |row| <= i < |points| ==> r.drawables[i].id == reg.counter + 1 + (i - |row|))
      && (Valid(reg) ==> Valid(r.registry))
  {
    var created := if |points| > |row| then |points| - |row| else 0;
    var spheres := MakeSpheres(reg, created, selectable);
    var r := PlaceSpheres(row, points, reg, selectable);
    assert r.registry == spheres.registry;
    if Valid(reg) {
      MakeSpheresKeepsValid(reg, created, selectable);
    }
    forall i | |row| <= i < |points|
      ensures r.drawables[i].id == reg.counter + 1 + (i - |row|)
    {
      assert r.drawables[i].id == spheres.ids[i - |row|];
    }
  }

  /** Spheres carry ids the counter has issued, before and after the row is
      fitted, as long as the counter does not wrap meanwhile. */
  lemma PlaceSpheresIssued(row: seq<Drawable>, points: seq<Vec3>, reg: Registry, selectable: bool)
    requires reg.counter < IdModulus
    requires forall i :: 0 <= i < |row| ==> row[i].id <= reg.counter
    requires NoWrap(PlaceSpheres(row, points, reg, selectable).registry, reg)
    ensures
      var p := PlaceSpheres(row, points, reg, selectable);
      forall i :: 0 <= i < |p.drawables| ==> p.drawables[i].id <= p.registry.counter
  {
    var p := PlaceSpheres(row, points, reg, selectable);
    PlaceSpheresFreshIds(row, points, reg, selectable);
    forall i | 0 <= i < |p.drawables|
      ensures p.drawables[i].id <= p.registry.counter
    {
      if i < |row| {
        assert p.drawables[i].id == row[i].id;
      }
    }
  }

  /** The curve and the registry after `setControlPoints`. */
  datatype Placed = Placed(curve: Curve, registry: Registry)

  /** `r` is `c` after new control points `points` were stored and the curve
      recomputed: the settings are kept, there is a sphere per point, and the
      curve is dirty. */
  predicate Reloaded(r: Curve, c: Curve, points: seq<Vec3>) {
    && r == c.(controlPoints := points, drawables := r.drawables, samples := r.samples, dirty := true)
    && |r.drawables| == |points|
  }

  /** `setControlPoints`: the points are stored, the curve's spheres are
      fitted to them (new ones selectable only on an editable curve), and the
      curve is recomputed, so its samples are those of the new points and it
      is dirty. Only the cubic's fatal count check can fail. */
  method SetControlPoints(c: Curve, points: seq<Vec3>, reg: Registry) returns (r: Result<Placed>)
    requires Evaluable(c.kind, points, c.subdivision)
    requires reg.counter < IdModulus
    ensures r.Err? <==> c.kind == CubicCurve && |points| != 4
    ensures r.Err? ==> r.error == WrongControlPointCount(4, |points|)
    ensures r.Ok? ==>
      var p := PlaceSpheres(c.drawables, points, reg, c.editable);
      && r.value.registry == p.registry
      && r.value.curve.drawables == p.drawables
      && Reloaded(r.value.curve, c, points)
    ensures r.Ok? && c.kind == CubicCurve ==> r.value.curve.samples == CubicSamples(points, c.subdivision)
    ensures r.Ok? && c.kind == QuadraticCurve ==> r.value.curve.samples == QuadraticSamples(points, c.subdivision)
    ensures r.Ok? && c.kind == PolylineCurve && |points| >= 1 ==> r.value.curve.samples == DuplicateEnds(points)
  {
    var p := PlaceSpheres(c.drawables, points, reg, c.editable);
    var recomputed := RecomputeCurve(c.(controlPoints := points, drawables := p.drawables));
    match recomputed
    case Err(e) =>
      r := Err(e);
    case Ok(d) =>
      r := Ok(Placed(d, p.registry));
  }
}
