# Quadratic approximation of cubic Bézier curves — a Dafny model

QuadraticApproximation is an interactive viewer. It reads a list of 3-D data
points and shows a pickable sphere for each one. From the points it derives
cubic Bézier control points: either the points themselves taken four at a
time, or a centripetal Catmull-Rom fit over every sliding window of four
points. For every cubic it also builds a C1 pair of quadratic Béziers
Q0..Q4 that approximates it, controlled by a blend factor gamma. It draws a
polyline through all control points, the cubics and the quadratic pairs.
Each curve is drawn as a sample sequence whose first and last samples are
doubled. Dragging a sphere moves its data point.

The model has these modules:

- `Geometry`: `Vec3` over exact reals and the vector algebra.
- `Outcomes`: the error results. The program aborts on these; the model returns them.
- `CatmullRom`: the window conversion and the fit. `length` and `pow` are uninterpreted functions passed in a `Metric` value.
- `QuadraticApprox`: the Q0..Q4 derivation.
- `Evaluators`: the three `computeLines` bodies (cubic, quadratic pair, polyline).
- `Pickable`: the pickable-object registry. The program keeps it in static members; here it is an explicit `Registry` value.
- `Curves`: the `Curve` base class — control points, spheres, samples and the dirty flag.
- `CurveApproximation`: the `QuadraticCurveApproximation` class and its operations.

Several declarations in `Source/QuadraticCurveApproximation.h` do not match
`Source/QuadraticCurveApproximation.cpp`:

- The header declares `setDataPoint`, `computeBezierControlPoints`, `updatePolylines` and `m_DataPoints`. The `.cpp` defines `setControlPoint`, `convertControlPoints` and `m_ControlPoints`.
- `Curve.h` declares a three-argument `draw` that `Curve.cpp` does not define.

The model follows the `.cpp` bodies. Its names use the `.cpp` meaning: the
"data points" are `m_ControlPoints`, and the "curve control points" are
`m_CurveControlPoints`.

## Model

| member | source | states |
|---|---|---|
| CatmullRom.ConvertWindow | Source/QuadraticCurveApproximation.cpp:290-318 | A regular window P0..P3 becomes a 4-point cubic that starts at P1 and ends at P2. |
| CatmullRom.Fit | Source/QuadraticCurveApproximation.cpp:320-332 | For N >= 3 points with regular windows, the fit has exactly 4(N-3) points. Tuple i is the conversion of window i, in window order. |
| CatmullRom.FitAnchors | Source/QuadraticCurveApproximation.cpp:309-329 | Tuple i runs from P[i+1] to P[i+2], so the last point of each tuple is the first point of the next tuple. |
| CatmullRom.DistinctWindowIsRegular | Source/QuadraticCurveApproximation.cpp:313-316 | Three chords of positive length, with pow positive on positive bases, make both handle denominators non-zero. |
| CatmullRom.CoincidentPointsAreSingular | Source/QuadraticCurveApproximation.cpp:313-316 | A zero-length first or last chord, with pow(0, alpha) = 0, makes a denominator vanish. The division is then undefined. |
| CatmullRom.UniformWindowHandles | Source/QuadraticCurveApproximation.cpp:313-316 | With equal chord powers the handles reduce to uniform Catmull-Rom: B1 = P1 + (P2 - P0)/6 and B2 = P2 - (P3 - P1)/6. This is an independent reference. |
| CatmullRom.UniformHandle | Source/QuadraticCurveApproximation.cpp:313-314 | The one-handle case of the uniform reduction. The denominator is non-zero and the handle is w + (u - v)/6. |
| QuadraticApprox.QuadraticFromCubic | Source/QuadraticCurveApproximation.cpp:209-218 | Five points; Q0 = B0 and Q4 = B3. |
| QuadraticApprox.EndHandles | Source/QuadraticCurveApproximation.cpp:211-212 | Q1 - Q0 = 1.5 gamma (B1 - B0) and Q4 - Q3 = 1.5 (1 - gamma)(B3 - B2). |
| QuadraticApprox.JointIsBlend | Source/QuadraticCurveApproximation.cpp:213 | Q2 - Q1 = gamma (Q3 - Q1) and Q3 - Q2 = (1 - gamma)(Q3 - Q1). |
| QuadraticApprox.JointOnSegment | Source/Application.cpp:119-120 | For a slider value gamma in [0, 1], Q2 lies on the segment Q1 Q3. |
| QuadraticApprox.GammaZero | Source/QuadraticCurveApproximation.cpp:211-213 | gamma = 0 gives Q1 = Q2 = B0. |
| QuadraticApprox.GammaOne | Source/QuadraticCurveApproximation.cpp:211-213 | gamma = 1 gives Q2 = Q3 = B3. |
| QuadraticApprox.TranslationEquivariant | Source/QuadraticCurveApproximation.cpp:209-213 | Translating the cubic translates every quadratic control point by the same vector. |
| QuadraticApprox.EndTangentsMatchCubic | Source/QuadraticCurveApproximation.cpp:209-213 | The pair's end tangents are the cubic's, scaled by 2 gamma and 2 (1 - gamma). At the default gamma 0.5 they are equal. |
| QuadraticApprox.StartTangentScaled | Source/QuadraticCurveApproximation.cpp:211 | The start tangent of the pair is 2 gamma times the cubic's start tangent. |
| QuadraticApprox.EndTangentScaled | Source/QuadraticCurveApproximation.cpp:212 | The end tangent of the pair is 2 (1 - gamma) times the cubic's end tangent. |
| Evaluators.DuplicateEndsAt | Source/DrawableObjects/Curves/Polyline.h:36-41 | The sequence with doubled ends starts with two copies of the first point and ends with two copies of the last. Point i sits at index i + 1. |
| Evaluators.CubicParamEnds | Source/DrawableObjects/Curves/CubicBezierCurve.cpp:39-41 | The parameter i (1/S) is exactly 0 at step 0 and exactly 1 at step S. |
| Evaluators.CubicWeightsSumToOne | Source/DrawableObjects/Curves/CubicBezierCurve.cpp:46-49 | The four Bernstein weights as grouped in the source sum to 1. |
| Evaluators.CubicAtEnds | Source/DrawableObjects/Curves/CubicBezierCurve.cpp:41-49 | The cubic is B0 at t = 0 and B3 at t = 1. |
| Evaluators.CubicOfConstant | Source/DrawableObjects/Curves/CubicBezierCurve.cpp:46-49 | If all four control points are P, every sample is P. |
| Evaluators.CubicStepsAt | Source/DrawableObjects/Curves/CubicBezierCurve.cpp:40-50 | The point pushed at step i is the cubic at parameter i (1/S). |
| Evaluators.CubicSamplesAt | Source/DrawableObjects/Curves/CubicBezierCurve.cpp:40-55 | Sample i + 1 is step i, and the first and last steps are doubled. |
| Evaluators.CubicSamplesEnds | Source/DrawableObjects/Curves/CubicBezierCurve.cpp:39-54 | The first two samples are B0 and the last two are B3. |
| Evaluators.AppendSamples | Source/DrawableObjects/Curves/CubicBezierCurve.cpp:40-55 | The push loop keeps the earlier samples. It appends the steps in order, with the first and last doubled. |
| Evaluators.CubicComputeLines | Source/DrawableObjects/Curves/CubicBezierCurve.cpp:30-56 | It fails exactly when there are not 4 control points. Otherwise it appends the S + 3 cubic samples to the existing ones. The result is the dispatcher's for a cubic. |
| Evaluators.HalfSelection | Source/DrawableObjects/Curves/QuadraticBezierCurve.cpp:38-39 | Step i is on the left half exactly when 2i < S. The piece parameter is 2i/S on the left half and (2i - S)/S on the right. |
| Evaluators.PairJoinIsContinuous | Source/DrawableObjects/Curves/QuadraticBezierCurve.cpp:44-45 | The left piece at s = 1 and the right piece at s = 0 both equal Q2, and so does the pair at t = 0.5. |
| Evaluators.PairAtEnds | Source/DrawableObjects/Curves/QuadraticBezierCurve.cpp:38-45 | The pair is Q0 at t = 0 and Q4 at t = 1. |
| Evaluators.QuadWeightsSumToOne | Source/DrawableObjects/Curves/QuadraticBezierCurve.cpp:44-45 | The three quadratic weights sum to 1. |
| Evaluators.PairOfConstant | Source/DrawableObjects/Curves/QuadraticBezierCurve.cpp:44-45 | If all five control points are P, the pair is P at every parameter. |
| Evaluators.QuadraticStepsAt | Source/DrawableObjects/Curves/QuadraticBezierCurve.cpp:37-46 | The point pushed at step i is the pair at parameter i/S. |
| Evaluators.QuadraticSamplesAt | Source/DrawableObjects/Curves/QuadraticBezierCurve.cpp:37-51 | Sample i + 1 is step i, and the first and last steps are doubled. |
| Evaluators.QuadraticSamplesLandmarks | Source/DrawableObjects/Curves/QuadraticBezierCurve.cpp:37-51 | The first two samples are Q0 and the last two are Q4. For even S, the middle sample is exactly Q2. |
| Evaluators.QuadParamMiddle | Source/DrawableObjects/Curves/QuadraticBezierCurve.cpp:38 | For even S, step S/2 has parameter exactly 0.5. |
| Evaluators.QuadraticComputeLines | Source/DrawableObjects/Curves/QuadraticBezierCurve.cpp:30-52 | With five control points and S >= 1, it appends the S + 3 pair samples to the existing ones. The result is the dispatcher's for a quadratic pair. |
| Evaluators.PolylineComputeLines | Source/DrawableObjects/Curves/Polyline.h:32-42 | No control points leaves the samples as they were. Otherwise the samples become the n points with the ends doubled: length n + 2, point i at index i + 1. At every subdivision the result is the dispatcher's for a polyline. |
| Evaluators.PolylineIgnoresSubdivision | Source/DrawableObjects/Curves/Polyline.h:29-42 | The polyline samples are the same at every subdivision. |
| Evaluators.ComputeLines | Source/DrawableObjects/Curves/Curve.cpp:57 | Dispatch by kind. Only a cubic without 4 points fails. Cubic and quadratic append S + 3 samples after the old ones; a non-empty polyline gives n + 2. |
| Curves.NewCurve | Source/DrawableObjects/Curves/Curve.h:72-73 | A new curve is enabled and clean, has no points or samples, and its buffer is in sync. |
| Curves.RecomputeCurve | Source/DrawableObjects/Curves/Curve.cpp:54-60 | It fails exactly for a cubic without 4 points. Otherwise it changes only the samples, which become the kind's evaluator output, and it sets dirty. |
| Curves.RecomputeIgnoresOldSamples | Source/DrawableObjects/Curves/Curve.cpp:55-57 | The result does not depend on the previous samples. |
| Curves.RecomputeIsIdempotent | Source/DrawableObjects/Curves/Curve.cpp:54-60 | Recomputing twice equals recomputing once. |
| Curves.Draw | Source/DrawableObjects/Curves/Curve.cpp:89-99 | A disabled or empty curve is unchanged, and so is a clean one. A dirty curve uploads its samples, sets the count to their number and becomes clean. The buffer-in-sync invariant is kept. |
| Curves.DrawIsIdempotent | Source/DrawableObjects/Curves/Curve.cpp:94-99 | A second draw without a recompute changes nothing. |
| Curves.PlaceSpheres | Source/DrawableObjects/Curves/Curve.cpp:65-81 | One sphere per point, at that point. Spheres below the old size keep their ids. New objects are appended to the registry, and nothing else in it changes. |
| Curves.PlaceSpheresFreshIds | Source/DrawableObjects/Curves/Curve.cpp:68-76 | Until the counter wraps, new spheres get the next ids in order and the registry stays valid. |
| Curves.PlaceSpheresIssued | Source/DrawableObjects/Curves/Curve.cpp:68-76 | If every sphere of the row carried an issued id and the counter does not wrap meanwhile, every sphere of the fitted row carries an issued id. |
| Curves.SetControlPoints | Source/DrawableObjects/Curves/Curve.cpp:63-86 | The points are stored, the spheres are fitted, and the curve is recomputed and dirty. Samples are those of the new points; only a cubic without 4 points fails. |
| Pickable.EmptyRegistryIsValid | Source/DrawableObjects/PickableObject.h:56-57 | The initial registry satisfies the invariant. |
| Pickable.ExtendsTransitive | Source/DrawableObjects/PickableObject.cpp:24-36 | Two runs of constructions in a row are one run: objects only appended, selection kept, counter advanced once per object modulo 2^32, and, without a wrap, the new objects carry the ids counter + 1, counter + 2, ... in order. |
| Pickable.ExtendsKeepsValid | Source/DrawableObjects/PickableObject.cpp:77-80 | A run of constructions without a wrap keeps the registry valid: live ids stay distinct and issued. |
| Pickable.NoWrapSplits | Source/DrawableObjects/PickableObject.cpp:77-80 | If the counter did not wrap over a chained run, it did not wrap over either part, and it grew by exactly the number of new objects in each. |
| Pickable.NextId | Source/DrawableObjects/PickableObject.cpp:77-80 | Until the wrap, the next id is counter + 1 and is never the background id 0. At the wrap it is 0. |
| Pickable.Construct | Source/DrawableObjects/PickableObject.cpp:24-36 | The object is appended with the new id: selectable, movable, not selected. The length grows by one and validity is kept. The id differs from every live object's id. |
| Pickable.SetSelectable | Source/DrawableObjects/PickableObject.h:44 | Only the selectable flag of object k changes. |
| Pickable.IndexOf | Source/DrawableObjects/PickableObject.cpp:66-70 | Returns the first index with the id, or -1 exactly when no object has it. |
| Pickable.BackgroundIsNoObject | Source/DrawableObjects/PickableObject.cpp:77-80 | In a valid registry no live object has id 0. |
| Pickable.Destroy | Source/DrawableObjects/PickableObject.cpp:39-48 | The found entry is overwritten by the last, and the list shrinks by one. The others survive as a multiset, the id is gone and validity is kept. An unknown id changes nothing. |
| Pickable.SwapRemoveMultiset | Source/DrawableObjects/PickableObject.cpp:43-44 | Swap-with-last removal loses exactly the removed element, as a multiset. |
| Pickable.UpdateSelectedObject | Source/DrawableObjects/PickableObject.cpp:64-74 | The selected object is the first match, or null with none. The match's flag becomes its selectable flag and earlier entries are deselected. Later entries are untouched. |
| Pickable.SelectionKeepsValid | Source/DrawableObjects/PickableObject.cpp:64-74 | Changing only selection flags keeps the registry valid. |
| Pickable.MakeSpheres | Source/DrawableObjects/Curves/Curve.cpp:68-76 | count objects are appended with the given selectable flag and the existing objects are kept. Until the wrap, ids are counter + 1 .. counter + count. |
| Pickable.AddSphere | Source/DrawableObjects/Curves/Curve.cpp:69-75 | One object with the next id and the given selectable flag is appended. |
| Pickable.MakeSpheresKeepsValid | Source/DrawableObjects/PickableObject.cpp:77-80 | Until the wrap, creating spheres keeps every live id distinct and issued. |
| CurveApproximation.HalvedSubdivisionAsWritten | Source/QuadraticCurveApproximation.cpp:238 | The shift is the floor of half: 2h <= s <= 2h + 1. |
| CurveApproximation.HalvedSubdivisionAsWrittenDividesByZero | Source/QuadraticCurveApproximation.cpp:238 | At slider value 1 the shift gives 0. The quadratic evaluator then divides 0/0 for its single step and pushes that one NaN point twice; the model's evaluator is not defined there. |
| CurveApproximation.QuadSubdivision | Source/QuadraticCurveApproximation.cpp:127 | The corrected value is within [1, s]. It equals the shift for s >= 2 and is at most 64 on the slider's range. |
| CurveApproximation.QuadSubdivisionIsEvaluable | Source/Application.cpp:107 | Every slider value gives the quadratic evaluator a legal subdivision. |
| CurveApproximation.NewApproximation | Source/QuadraticCurveApproximation.cpp:41-62 | Before loading there is an empty polyline with subdivision 1 and no segments or spheres. Gamma is 0.5, subdivision 64, the fit is off and quadratics are disabled. |
| CurveApproximation.ConvertControlPoints | Source/QuadraticCurveApproximation.cpp:107-113 | Without the fit the data points are copied verbatim. With it the result is the Catmull-Rom fit, tuple by window. |
| CurveApproximation.SegmentCount | Source/QuadraticCurveApproximation.cpp:116-118 | Without the fit there are floor(N/4) segments holding the data 4-tuples, and trailing points are ignored. With it there are N - 3 chained segments. |
| CurveApproximation.ResizeFamilies | Source/QuadraticCurveApproximation.cpp:117-140 | Both families have exactly floor(count/4) curves and existing curves are kept. New ones are fresh and not editable; new quadratics get `QuadSubdivision(S)` (the corrected halving, see Findings), and every quadratic follows the enabled flag. |
| CurveApproximation.Resize | Source/QuadraticCurveApproximation.cpp:134-135 | The result has length n and keeps the old curves, padded with copies of the new one. |
| CurveApproximation.IndexSpheres | Source/QuadraticCurveApproximation.cpp:160-172 | Old keys are kept, and every new sphere's id becomes a key. |
| CurveApproximation.IndexSpheresFinds | Source/QuadraticCurveApproximation.cpp:171 | A sphere with no later sphere sharing its id is mapped to its own index. |
| CurveApproximation.IndexSpheresKeeps | Source/QuadraticCurveApproximation.cpp:171 | An entry whose key no new sphere carries survives unchanged. |
| CurveApproximation.UpdateMainControlPoints | Source/QuadraticCurveApproximation.cpp:148-173 | There is one sphere per data point, at that point. Kept spheres keep their ids, the registry only grows, and old map entries stay. |
| CurveApproximation.UpdateMainControlPointsIndexesSpheres | Source/QuadraticCurveApproximation.cpp:148-173 | Until the wrap, every sphere is found in the map under its own data-point index afterwards. |
| CurveApproximation.PlacedRowIndexed | Source/QuadraticCurveApproximation.cpp:160-172 | The row-level form of the previous row, over any indexed row of spheres. |
| CurveApproximation.KeptSphereIndexed | Source/QuadraticCurveApproximation.cpp:153-158 | A kept sphere's entry survives, because new ids are all above its id. |
| CurveApproximation.NewSphereIndexed | Source/QuadraticCurveApproximation.cpp:168-171 | A new sphere is indexed at its own position. |
| CurveApproximation.SetSegment | Source/QuadraticCurveApproximation.cpp:186-221 | The cubic gets the 4-tuple and the quadratic curve gets its Q0..Q4. Both are recomputed from these and keep their settings. |
| CurveApproximation.LoadSegments | Source/QuadraticCurveApproximation.cpp:183-222 | Every segment i is loaded with tuple i and its quadratic points. Curves past the last segment are untouched. |
| CurveApproximation.KeepSettings | Source/QuadraticCurveApproximation.cpp:176-222 | Curves that keep their kind, subdivision and enabled flag keep the family invariants. |
| CurveApproximation.UpdateCurveControlPoints | Source/QuadraticCurveApproximation.cpp:176-225 | Fewer than 4 points is a no-op. Otherwise the polyline gets all points, and cubic i and quadratic i get tuple i and its pair. The registry only grows, and stays valid without a wrap; everything else is unchanged. |
| CurveApproximation.PrepareCurves | Source/QuadraticCurveApproximation.cpp:116-143 | The families are resized to the segment count and the spheres are placed on the data points. Nothing else changes, the registry only grows, and indexed and issued spheres stay so while the counter does not wrap. A valid registry stays valid while the counter does not wrap. |
| CurveApproximation.GenerateCurves | Source/QuadraticCurveApproximation.cpp:116-145 | The cubic count equals the quadratic count, which is floor(count/4). Cubic i holds tuple i and quadratic i its Q0..Q4. Only curves, spheres, map and registry change; the registry only grows. Indexed and issued spheres stay so while the counter does not wrap. A valid registry stays valid while the counter does not wrap. |
| CurveApproximation.LoadControlPoints | Source/QuadraticCurveApproximation.cpp:269-271 | Loaded points are converted and the curves generated, with the invariants and the segment count. The registry only grows, and indexed and issued spheres stay so while the counter does not wrap. A valid registry stays valid while the counter does not wrap. |
| CurveApproximation.Startup | Source/QuadraticCurveApproximation.cpp:41-70 | After construction there are floor(N/4) segments and disabled quadratics. Every sphere is indexed, and without a wrap every sphere id is issued and a valid registry stays valid. The registry only grows. |
| CurveApproximation.SetControlPoint | Source/QuadraticCurveApproximation.cpp:92-97 | An unknown id or a stale index is the error. Otherwise exactly the mapped data point moves and nothing else changes. |
| CurveApproximation.MovingASphereMovesItsPoint | Source/QuadraticCurveApproximation.cpp:92-97 | With an indexed map, dragging sphere i moves data point i. |
| CurveApproximation.RecomputeAll | Source/QuadraticCurveApproximation.cpp:229-234 | Each curve gets subdivision s and the evaluator's samples, and is dirty. Nothing else changes. |
| CurveApproximation.ComputeCurves | Source/QuadraticCurveApproximation.cpp:228-239 | The polyline, the cubics at S and the quadratics at `QuadSubdivision(S)` (the corrected halving, see Findings) are recomputed. Only samples, subdivision and dirty change. |
| CurveApproximation.SegmentSharesEnds | Source/QuadraticCurveApproximation.cpp:209-210 | For one 4-tuple, the samples of its quadratic pair start and end where the cubic's samples do. |
| CurveApproximation.ApproximationSharesEnds | Source/QuadraticCurveApproximation.cpp:209-210 | After computing, each quadratic pair's first and last samples equal its cubic's. |
| CurveApproximation.ChainedCurvesJoin | Source/QuadraticCurveApproximation.cpp:311-312 | Cubics that share anchors give samples that join: the last sample of one is the first of the next. |
| CurveApproximation.ComputeGenerated | Source/QuadraticCurveApproximation.cpp:228-239 | On generated curves, every cubic's samples are those of its tuple, every quadratic's those of its pair, and the pair ends meet the cubic's. |
| CurveApproximation.RebuildCurves | Source/Application.cpp:110-114 | Toggling the fit gives floor(N/4) or N - 3 segments. Cubics are sampled at S and quadratics at `QuadSubdivision(S)` (the corrected halving, see Findings), and each pair's ends meet its cubic's. With the fit the cubic spline has no gaps. Data points and settings are kept, the registry only grows, and indexed and issued spheres and a valid registry stay so while the counter does not wrap, so the toggle can be repeated. |
| CurveApproximation.RegenerateCurves | Source/Application.cpp:110-112 | The conversion and generation steps of the toggle: the segment count, tuple i in cubic i, chained cubics with the fit, and the same sphere and registry facts, validity included. |

## Left out

- Rendering: `Curve::draw`'s shader calls, `invalidateData`, sphere transforms, colours, radii and `PickableObject::draw`. Only the state `draw` changes is modelled.
- The triangle-strip tessellation `convertToTriangleStrip`: it is only declared, so there is no body to model.
- ArcBall and ArcBallCamera: these are camera maths over library quaternion types.
- File I/O:
  - `loadControlPoints` reads the file; the model takes the parsed points as a parameter.
  - `saveControlPoints` writes the file and is not modelled.
  - The missing-file fatal error is not modelled.
- The Application classes:
  - Event routing, widgets and the GL picking readback are not modelled. Only the slider ranges (subdivision 1..128, gamma in [0, 1]) and the Catmull-Rom toggle sequence (`RebuildCurves`) are used.
  - `RebuildCurves` maps the toggle's call to the header-only `computeBezierControlPoints` (`Source/Application.cpp:111`) to `convertControlPoints`, the `.cpp` function of that role.
  - The point-editing sequence in `Source/Application.cpp:80-92` is not modelled as a whole: its `updatePolylines` is declared in the header but has no body anywhere. `SetControlPoint` models its first step.
- `updateCurveConfigs` and the "Render quadratic Bezier" checkbox: they copy display settings, and only the enabled flag matters here. `ResizeFamilies` models the enabled flag as `generateCurves` sets it.
- `resetMainControlPointPositions`: it needs `m_ControlPoints_t0`, which no shown code assigns.
- Floating point: positions and parameters are exact reals. `i * (1/S)` reaching 1 holds only in exact arithmetic.
- `length` and `pow`: they are uninterpreted functions inside `CatmullRom.Metric`. Square roots and the true power function are not modelled.
- Sphere lifetime: spheres cut off by `resize` are never destroyed in the source. They stay in the registry in the model too. Destruction is modelled only by `Pickable.Destroy`.
- Pickable.MakeSpheres, Curves.PlaceSpheresFreshIds, CurveApproximation.UpdateMainControlPointsIndexesSpheres: the fresh-id and indexing facts are stated only until the 32-bit id counter wraps (`NoWrap`). `NextId` itself models the wrap to 0, and `Extends` tracks the counter modulo 2^32; the ids of appended objects and the registry's validity (`ExtendsKeepsValid`) are likewise stated only without a wrap.
- CurveApproximation.ResizeFamilies, CurveApproximation.ComputeCurves, CurveApproximation.RebuildCurves: the quadratic curves use `QuadSubdivision(S)`, not the source's `S >> 1`. The two differ only at S = 1: there the source evaluates 0/0 once and pushes two NaN points, while the model draws the pair with one step, as [Q0, Q0, Q4, Q4]. See Findings.
- CatmullRom.ConvertWindow: a window with a zero handle denominator is excluded by its precondition. In single precision the division would give infinities or NaNs, which exact reals cannot represent. `CoincidentPointsAreSingular` says when this happens.
- CatmullRom.Fit: fewer than 3 data points is excluded by its precondition, because `size() - 3` wraps around in unsigned arithmetic.
- Evaluators.DuplicateEnds, Evaluators.CubicSamples, Evaluators.QuadraticSamples: their own contracts state only the length. The content is stated by `DuplicateEndsAt`, `CubicSamplesAt` and `QuadraticSamplesAt`.
- CurveApproximation.IndexSpheres: its own contract states only which keys are present. The values are stated by `IndexSpheresFinds` and `IndexSpheresKeeps`.

## Findings

| source | as written | input that shows it | evidently intended | confidence | as-written member | corrected member |
|---|---|---|---|---|---|---|
| Source/QuadraticCurveApproximation.cpp:238 | The quadratic curves get subdivision `m_Subdivision >> 1`; line 127 does the same. | The "Segments" slider at its minimum, 1. The quadratic evaluator then divides `0 / 0` for its only step. | Half the subdivision, but at least 1, so that every slider value can be evaluated. | not executed | CurveApproximation.HalvedSubdivisionAsWrittenDividesByZero | CurveApproximation.QuadSubdivision |
