# Algori-web curve visualiser: a Dafny model

Algori-web is a browser application. It draws parametric curves:
- 2D families: Lissajous, hypocycloid, hypotrochoid ("hypertrochoïde"), Maurer rose, and a sum of rotating terms ("exponential").
- 3D families: Lissajous and Clélie.

Each curve tab keeps a record of parameters and edits it through sliders. It samples the curve with a fixed-step loop, draws it, and exports it as SVG or PLY. This project models:

- **The parameter sweep** (`useAnimation`), as the class `Animation.Animator`.
  - A tick moves every selected parameter by `stepSize * direction` and clamps it to the hook's bound table.
  - It reverses the one shared direction when any parameter reached a bound.
  - The tick is a loop method proved against the fold `TickFold`. The lemmas about the fold give:
    - the key set is kept;
    - untouched entries are kept;
    - every scalar ends in its bounds;
    - the indexed `a0`/`b1` path behaves as described;
    - the direction flips exactly when some key hit a bound.
- **The export text** (`Export`):
  - **PLY:** the file is read back line by line (header, K + 1 vertices with the first repeated, edges `i i+1`).
  - **SVG path data:** parsed back into one `M` then `L` per point.
  - **`saveSvg2D` fit:** the fit transform is inverted, and every point of a non-degenerate box lands inside the 50-unit margins.
  - **`saveSvg3D`:** the NDC-to-pixel map.
- **The seven curve tabs** (one module each). Each has:
  - its parameter record and handler;
  - its bound tables (`Controls`);
  - its `generatePoints`, as the shared push loop `Sampler.Sample`, proved equal to the value `Sampler.Sampled`;
  - its file-name rule, where every `.` becomes `p`, suffix included;
  - its exports.

  Properties of the formulas are proved from the identities `sin 0 = 0`, `cos 0 = 1`, `sin² + cos² = 1` and `|sin| ≤ 1`. They include first points, bounds, the Clélie sphere, the Maurer unit disk, and the hypotrochoid with d = r being the hypocycloid mirrored.
- **The 2D canvas renderer** (`CurveVisualization`).
  - The bounding-box scan loop.
  - The `|| 1` zero-extent guard.
  - Uniform scale and centring.
  - The `moveTo`/`lineTo` sequence, recorded on a `Context` object whose call list the render appends to.
- **The 3D scene** (`Curve3DVisualization`).
  - The choice between the tab's generator and the built-in Lissajous loop.
  - The segment position buffer (`curveGeometry`). It is computed but not rendered: the drawn line is the geometry built from the point list itself.
  - The camera framing rules on a `Scene` object: first framing only once, zoom limits on every update, and the mobile breakpoint. The curve-type reset runs once, at mount, after the framing effect, so the camera is framed at mount and framed again at the next update (`Curve3DVisualization.Scene.MountThenUpdate`).

`Math.sin` and `Math.cos` are parameters (`Trigonometry.Trig`). `Math.PI` is the constant 3.141592653589793. The text JavaScript prints for a number is an opaque `render` function, with `fixed1` standing for `toFixed(1)`. Integer counts in the PLY header use an exact decimal rendering.

Behaviour kept as the code has it:
- The Lissajous 3D tab multiplies `longueur` by π when it stores it and again when it samples it (`Lissajous3D.LengthTwicePi`). Its default is the bare 2.
- Two indices of one array selected together in the sweep each copy the array from the previous record, so only the last one's change survives (`Animation.SameArrayLastWins`).
- The 2D Lissajous figure with A = B = p = q = 1, δ = 0 is the diagonal x = y, not a circle (`Lissajous2D.UnitFigureIsDiagonal`).
- The canvas renderer does not flip y, while the SVG export does (`CurveVisualization.NoFlipUniformScale`, `Export.FitFlipsY`).
- The exponential tab's θ_max slider divides its step by π, although the table already gives it in units of π (`Exponential.ThetaSlider`).
- Shrinking the exponential term count and growing it back brings the dropped terms back as amplitude 1, speed j + 1 (`Exponential.ShrinkThenGrow`).
- A negative term count typed into the exponential tab cuts the lists from the back, the term loop then adds nothing, and every point of the curve is the origin (`Exponential.NegativeTermsAtOrigin`).
- The longueur number boxes show longueur / π rounded to one decimal, so re-entering what a box shows can move the stored value by up to 0.05 π (`Lissajous2D.BoxRoundTrip`, `Lissajous2D.BoxRoundsUp`, `Lissajous2D.BoxRoundsAway`).

## Model

| member | source | states |
|---|---|---|
| Animation.BoundsOrdered | src/hooks/useAnimation.ts:130-150 | every key's minimum is below its maximum; keys other than n, d, k, points get [0, 100] |
| Animation.Clamp | src/hooks/useAnimation.ts:45-51 | a bound is reported iff the value is at or past max or at or below min; the max comparison comes first; a value at or past max becomes max, otherwise a value at or below min becomes min, a value strictly inside is kept; within [min, max] when min ≤ max |
| Animation.TickFoldKeys | src/hooks/useAnimation.ts:27-73 | a tick writes only existing entries, so the record keeps exactly its keys |
| Animation.TickFoldUntouched | src/hooks/useAnimation.ts:27-73 | an entry no selected key writes keeps its previous value |
| Animation.TickFoldScalar | src/hooks/useAnimation.ts:55-71 | a selected scalar ends as the clamped step of its previous value, whatever else is selected |
| Animation.TickFoldScalarInBounds | src/hooks/useAnimation.ts:57-69 | after a tick every selected scalar lies within its bounds |
| Animation.TickFoldIndexed | src/hooks/useAnimation.ts:32-54 | the last indexed key of an array sets its position to the clamped step, bounds looked up by the letter; every other position keeps its value |
| Animation.TickFoldFlip | src/hooks/useAnimation.ts:28-77 | the flip flag is raised iff at least one selected key reached a bound |
| Animation.SameArrayLastWins | src/hooks/useAnimation.ts:35-54 | with a0 and a1 selected on [1, 1] and step 0.5, the result is [1, 1.5]: the earlier change is lost |
| Animation.Without | src/hooks/useAnimation.ts:93-94 | `Set.delete`: exactly the other keys remain, still without duplicates |
| Animation.Toggled | src/hooks/useAnimation.ts:90-99 | a key is in the new selection iff it was in the old one xor it is the toggled key |
| Animation.ToggleTwice | src/hooks/useAnimation.ts:90-99 | toggling twice restores the selection as a set, and exactly when the key was absent |
| Animation.StepParam | src/hooks/useAnimation.ts:30-72 | the `forEach` callback builds exactly one step of the fold: the key read from the previous record, clamped, written into the record being built, and the flag raised on a bound |
| Animation.Animator.constructor | src/hooks/useAnimation.ts:16-20 | stopped, direction 1, empty selection, step 1, one step per second |
| Animation.Animator.Tick | src/hooks/useAnimation.ts:23-83 | empty selection: nothing changes and nothing is scheduled; otherwise the record becomes the fold's result, the direction is negated iff the fold flags a bound, the direction stays ±1, and the next tick is scheduled |
| Animation.Animator.ToggleAnimation | src/hooks/useAnimation.ts:85-88 | no effect on an empty selection, otherwise flips `isAnimating` |
| Animation.Animator.ToggleParam | src/hooks/useAnimation.ts:90-101 | adds an absent key or removes a present one, keeps the selection duplicate-free, and stops the animation |
| Animation.Animator.SetStepSize | src/hooks/useAnimation.ts:123-124 | the step size becomes the given value |
| Animation.Animator.SetStepsPerSecond | src/hooks/useAnimation.ts:125-126 | the rate becomes the given value |
| Text.ReplaceDots | src/components/tabs/HypocycloideTab.tsx:42-43 | same length, no `.`, each `.` replaced by `p` and every other character kept |
| Text.ReplaceDotsSuffix | src/components/tabs/HypocycloideTab.tsx:42-43 | the replacement works piecewise over name, suffix dot and extension |
| Text.ReplaceDotsIdempotent | src/components/tabs/HypocycloideTab.tsx:43 | replacing twice gives the same name as once |
| Text.NatToString | src/utils/export.ts:59 | a count prints as a non-empty string of decimal digits |
| Text.ParseNatToString | src/utils/export.ts:73 | a printed count reads back as that count |
| Text.SplitJoin | src/utils/export.ts:67-75 | splitting lines joined by a separator they do not contain gives the lines back |
| Controls.Lookup | src/components/tabs/HypocycloideTab.tsx:134-142 | `table[key] \|\| fallback`: a missing key or a stored 0 gives the fallback, a listed non-zero value is returned |
| Controls.UnlistedKey | src/components/tabs/HypocycloideTab.tsx:134-162 | a key no table lists gets min 0, max 100, step 1 |
| Controls.FileName | src/components/tabs/Lissajous3DTab.tsx:66-67 | the name has no `.`, the length of stem + `.` + extension, and is the replaced stem, `p`, then the replaced extension |
| Controls.FileNameTail | src/components/tabs/Lissajous3DTab.tsx:66-67 | the name ends in `p` followed by the replaced extension |
| Controls.FileNameSuffix | src/components/tabs/Lissajous3DTab.tsx:59-67 | an SVG name ends in `psvg` and a PLY name in `pply` |
| Controls.Tenths | src/components/tabs/Lissajous2DTab.tsx:190 | `toFixed(1)` as a number: a whole number of tenths within 0.05 of the value, a tie going away from zero (up for x ≥ 0, down for x < 0) |
| Controls.TenthsExact | src/components/tabs/Lissajous2DTab.tsx:190 | a whole number of tenths is shown unchanged |
| Controls.Stride | src/components/tabs/Lissajous3DTab.tsx:73 | the stride is at least 1 and is 1 exactly below 1000 points; from 500 points on it is the whole number of times 500 fits in the length (step · 500 ≤ length < step · 500 + 500), below 500 it is 1 |
| Controls.KeptShape | src/components/tabs/Lissajous3DTab.tsx:74 | the filter keeps point j·step as its j-th element, in order, and keeps ceil(length / step) points |
| Controls.KeptCount | src/components/tabs/Lissajous3DTab.tsx:73-74 | the kept count is (length + step − 1) / step |
| Controls.ReducedForPly | src/components/tabs/Clelie3DTab.tsx:105-107 | a non-empty curve keeps its first point; kept element j is original point j·stride |
| Sampler.Steps | src/components/tabs/HypocycloideTab.tsx:20 | a whole `points` value ≥ 1 is a positive step count equal to it |
| Sampler.Endpoints | src/components/tabs/HypocycloideTab.tsx:20-21 | the sample parameters start at 0 and end at the range length |
| Sampler.FirstSample | src/components/tabs/HypocycloideTab.tsx:20-28 | the first sample is f(0) |
| Sampler.SampledShape | src/components/tabs/HypocycloideTab.tsx:20-28 | N + 1 samples, sample i being f(t_i), the first f(0) and the last f(L) |
| Sampler.Sample | src/components/tabs/HypocycloideTab.tsx:17-30 | the push loop returns N + 1 points, point i being f((i / N) L) |
| Geometry.BoundingBox | src/utils/export.ts:108-113 | the box contains every point |
| Geometry.BoundingBoxAttained | src/utils/export.ts:108-113 | each side of the box is attained by some point, so it is the smallest box holding them |
| Geometry.BoundingBoxSnoc | src/components/CurveVisualization.tsx:29-37 | the box of one more point is the previous box grown to hold it |
| Geometry.BoxOf | src/components/Curve3DVisualization.tsx:73 | the box contains every point |
| Geometry.BoxAttained | src/components/Curve3DVisualization.tsx:73 | each of the six faces is attained by some point |
| Export.PlyContent | src/utils/export.ts:51-75 | no file for an empty list, where the source reads a missing first point; a file otherwise |
| Export.PlyContentIsLines | src/utils/export.ts:56-75 | the file is the ten header lines, the closed vertex lines and the edge lines, joined by newlines |
| Export.PlyLinesShape | src/utils/export.ts:56-75 | the line list is the header, the K vertex lines, the first vertex again and the K edge lines, at fixed positions |
| Export.PlyLinesFree | src/utils/export.ts:56-75 | no line contains a newline when numbers print without one |
| Export.PlyReadBack | src/utils/export.ts:51-75 | read back: 10 + (K + 1) + K lines, `element vertex K+1`, `element edge K`, vertices in input order with the first point again at K, edge i written `i i+1` |
| Export.EdgeReadBack | src/utils/export.ts:73 | an edge line splits into two numbers that read back as i and i + 1, so the last edge ends at the repeated vertex K |
| Export.PathTokens | src/utils/export.ts:128-131 | the path data has 1 + 2·K space-separated tokens |
| Export.PathDataIsTokens | src/utils/export.ts:128-131 | the `reduce` output is the tokens joined by spaces |
| Export.ParsePathData | src/utils/export.ts:128-131 | parsing the path data back gives one command per point in order: `M` for the first, `L` after, with that point's printed coordinates |
| Export.FitInvertible | src/utils/export.ts:122-125 | the page transform is inverted by x = (x' − 50) / s + minX, y = (h − y' − 50) / s + minY, both ways |
| Export.FitScaleBounds | src/utils/export.ts:115-119 | the scale is non-negative and the scaled extents fit the page less both margins |
| Export.FitPointInside | src/utils/export.ts:122-125 | with any non-negative scale that fits both extents, a point of the box lands inside the margins |
| Export.FitBoxPoint | src/utils/export.ts:122-125 | a point of the box lands inside the page less its margins |
| Export.FitInsidePage | src/utils/export.ts:106-125 | with a non-degenerate box every written point lies in [50, width − 50] × [50, height − 50] |
| Export.FitFlipsY | src/utils/export.ts:124 | a higher curve point lands higher on the page: y is flipped |
| Export.Fitted | src/utils/export.ts:122-125 | one page point per curve point |
| Export.Svg2DFile | src/utils/export.ts:106-145 | a document exactly when the list is empty or its box has width and height, and then the 800 × 800 page |
| Export.NdcMapping | src/utils/export.ts:163-166 | NDC x in [−1, 1] maps into [0, width] and y into [0, height] reversed; the corners map to the page corners; the map is invertible |
| Export.Projected | src/utils/export.ts:160-167 | pixel point i is the NDC-to-pixel image of projected point i |
| Hypocycloide.HandleParamChange | src/components/tabs/HypocycloideTab.tsx:33-38 | the named field becomes the value, every other field is kept |
| Hypocycloide.RangeFacts | src/components/tabs/HypocycloideTab.tsx:134-162 | within the ranges r ≥ 0.1, R in [1, 10], points in [100, 10000]; the defaults are in range |
| Hypocycloide.GeneratePoints | src/components/tabs/HypocycloideTab.tsx:16-31 | N + 1 points, point i the hypocycloid at t = (i / N) · tours · 2π |
| Hypocycloide.FirstPoint | src/components/tabs/HypocycloideTab.tsx:20-27 | the curve starts at (R, 0) |
| Hypocycloide.CuspLabel | src/components/tabs/HypocycloideTab.tsx:100-105 | no note when r = 0; otherwise the ratio R / r, with a cusp count exactly when it is whole, and that count times r is R |
| Hypocycloide.CuspExamples | src/components/tabs/HypocycloideTab.tsx:100-105 | the defaults show 2.5 and no cusps; R = 6, r = 2 shows 3 cusps |
| Hypocycloide.ExportName | src/components/tabs/HypocycloideTab.tsx:40-43 | no `.` in the name, which ends in `psvg` |
| Hypocycloide.ExportSvg | src/components/tabs/HypocycloideTab.tsx:40-46 | the export name and a document exactly when the curve's box has width and height, namely the fitted 800 × 800 page of the curve |
| Hypertrochoide.HandleParamChange | src/components/tabs/HypertrochoideTab.tsx:33-38 | the named field becomes the value, every other field is kept |
| Hypertrochoide.RangeFacts | src/components/tabs/HypertrochoideTab.tsx:59-90 | within the ranges r ≥ 1, d in [0, 10], points in [100, 10000]; the defaults are in range |
| Hypertrochoide.GeneratePoints | src/components/tabs/HypertrochoideTab.tsx:17-31 | N + 1 points, point i the traced point at t = (i / N) · tours · 2π with y negated |
| Hypertrochoide.FirstPoint | src/components/tabs/HypertrochoideTab.tsx:21-28 | the curve starts at (R − r + d, 0) |
| Hypertrochoide.RimIsHypocycloid | src/components/tabs/HypertrochoideTab.tsx:24-28 | with d = r each point is the hypocycloid's point for the same R, r, tours, points with y negated |
| Hypertrochoide.ExportName | src/components/tabs/HypertrochoideTab.tsx:40-43 | no `.` in the name, which ends in `psvg` |
| Hypertrochoide.ExportSvg | src/components/tabs/HypertrochoideTab.tsx:40-46 | the export name and a document exactly when the curve's box has width and height, namely the fitted 800 × 800 page |
| MaurerRose.HandleParamChange | src/components/tabs/MaurerRoseTab.tsx:35-40 | the named field becomes the value, every other field is kept |
| MaurerRose.RangeFacts | src/components/tabs/MaurerRoseTab.tsx:129-157 | n in [1, 20], d in [1, 180], k in [1, 10] with step 0.1; the defaults are in range |
| MaurerRose.GeneratePoints | src/components/tabs/MaurerRoseTab.tsx:16-33 | N + 1 points, point i the rose at θn = n · d · 2π · i / N |
| MaurerRose.SampleIsRose | src/components/tabs/MaurerRoseTab.tsx:21-27 | the point at sample i is the rose at the sample's θn |
| MaurerRose.AngleOfSample | src/components/tabs/MaurerRoseTab.tsx:21-23 | degrees over the 360-degree sweep turned to radians give θn = n · d · 2π · i / N |
| MaurerRose.RoseInUnitDisk | src/components/tabs/MaurerRoseTab.tsx:26-27 | x² + y² = sin²(kθn) ≤ 1 |
| MaurerRose.CurveInUnitDisk | src/components/tabs/MaurerRoseTab.tsx:20-29 | every curve point lies in the closed unit disk |
| MaurerRose.FirstPoint | src/components/tabs/MaurerRoseTab.tsx:20-29 | the curve starts at the origin |
| MaurerRose.ExportName | src/components/tabs/MaurerRoseTab.tsx:42-45 | no `.` in the name, which ends in `psvg` |
| MaurerRose.ExportSvg | src/components/tabs/MaurerRoseTab.tsx:42-48 | the export name and a document exactly when the curve's box has width and height, namely the fitted 800 × 800 page |
| Lissajous2D.HandleParamChange | src/components/tabs/Lissajous2DTab.tsx:51-56 | the named field becomes the value, every other field is kept |
| Lissajous2D.InputRoundTrip | src/components/tabs/Lissajous2DTab.tsx:175-185 | through the slider, an entered value is shown back unchanged, and a shown value re-entered stores the same value |
| Lissajous2D.BoxShown | src/components/tabs/Lissajous2DTab.tsx:190 | the number box shows longueur / π rounded to a whole number of tenths, within 0.05 of the slider's value, a tie going away from zero; other keys as stored |
| Lissajous2D.BoxRoundTrip | src/components/tabs/Lissajous2DTab.tsx:188-196 | through the number box, a value with at most one decimal is shown back unchanged and any value is shown within 0.05, a tie going away from zero |
| Lissajous2D.BoxRoundsUp | src/components/tabs/Lissajous2DTab.tsx:188-196 | typing 0.25 into the longueur box shows 0.3 back |
| Lissajous2D.BoxRoundsAway | src/components/tabs/Lissajous2DTab.tsx:188-196 | typing −0.25 into the longueur box shows −0.3 back |
| Lissajous2D.EditThroughInput | src/components/tabs/Lissajous2DTab.tsx:180-196 | an edit through an input stores longueur as value × π and other keys as entered, keeping the other fields |
| Lissajous2D.DefaultsInRange | src/components/tabs/Lissajous2DTab.tsx:176-179 | the defaults lie inside the inline slider ranges in displayed units |
| Lissajous2D.GeneratePoints | src/components/tabs/Lissajous2DTab.tsx:37-49 | N + 1 points, point i = (A sin(p t + δπ), B sin(q t)) at t = (i / N) · longueur |
| Lissajous2D.FirstPoint | src/components/tabs/Lissajous2DTab.tsx:41-45 | the curve starts at (A sin(δπ), 0) |
| Lissajous2D.FigureBounded | src/components/tabs/Lissajous2DTab.tsx:43-44 | the figure stays in [−\|A\|, \|A\|] × [−\|B\|, \|B\|] |
| Lissajous2D.CurveInBox | src/components/tabs/Lissajous2DTab.tsx:41-46 | every curve point stays in that box |
| Lissajous2D.UnitFigureIsDiagonal | src/components/tabs/Lissajous2DTab.tsx:43-44 | with A = B = p = q = 1 and δ = 0 every point has x = y |
| Lissajous2D.ExportName | src/components/tabs/Lissajous2DTab.tsx:58-61 | no `.` in the name, which ends in `psvg` |
| Lissajous2D.ExportSvg | src/components/tabs/Lissajous2DTab.tsx:58-64 | the export name and a document exactly when the curve's box has width and height, namely the fitted 800 × 800 page |
| Lissajous2D.ToRecord | src/components/tabs/Lissajous2DTab.tsx:35 | the record handed to the sweep holds every field under its own name |
| Lissajous2D.TickKeepsPointCount | src/components/tabs/Lissajous2DTab.tsx:144-147 | a selection made with the toggles can always be stepped, and a tick never changes `points`, which has no toggle |
| Lissajous2D.PressPlay | src/components/tabs/Lissajous2DTab.tsx:96-98 | a press on the play button starts or stops the animation when something is selected and changes nothing when the button is disabled |
| Exponential.SliceEnd | src/components/tabs/ExponentialTab.tsx:52-53 | `slice(0, end)` stops within the list, at `end` itself when it is in range |
| Exponential.HandleParamChange | src/components/tabs/ExponentialTab.tsx:39-67 | the padding loop and the cut compute the edited record |
| Exponential.TermsResize | src/components/tabs/ExponentialTab.tsx:41-54 | setting n to v ≥ 0 leaves both lists of length v; the first terms are kept and each added term j gets amplitude 1, speed j + 1 |
| Exponential.ShrinkThenGrow | src/components/tabs/ExponentialTab.tsx:41-54 | terms dropped by shrinking come back as amplitude 1, speed j + 1 |
| Exponential.IndexedEdit | src/components/tabs/ExponentialTab.tsx:55-62 | an indexed a or b edit changes only that entry and keeps the shape |
| Exponential.ScalarEdit | src/components/tabs/ExponentialTab.tsx:63-64 | a theta_max or points edit changes only that field |
| Exponential.TermSums | src/components/tabs/ExponentialTab.tsx:25-32 | the inner loop computes the two term sums over j < n, none when n is negative |
| Exponential.GeneratePoints | src/components/tabs/ExponentialTab.tsx:17-37 | N + 1 points, point i = (Σ a_j cos(b_j θ), −Σ a_j sin(b_j θ)) at θ = (i / N) · theta_max |
| Exponential.SumsAtZero | src/components/tabs/ExponentialTab.tsx:29-32 | at θ = 0 the x sum is the sum of the amplitudes and the y sum is 0 |
| Exponential.FirstPoint | src/components/tabs/ExponentialTab.tsx:21-34 | the curve starts at (Σ a_j, 0) |
| Exponential.XTermBounded | src/components/tabs/ExponentialTab.tsx:30 | a term's x part is within its amplitude |
| Exponential.YTermBounded | src/components/tabs/ExponentialTab.tsx:31 | a term's y part is within its amplitude |
| Exponential.SumsBounded | src/components/tabs/ExponentialTab.tsx:29-32 | neither sum exceeds Σ \|a_j\| |
| Exponential.CurveBounded | src/components/tabs/ExponentialTab.tsx:21-34 | every curve point lies in the square of half-side Σ \|a_j\| |
| Exponential.NegativeTermsAtOrigin | src/components/tabs/ExponentialTab.tsx:17-54 | after a negative n is typed, the record is still well formed and every curve point is the origin |
| Exponential.SingleTermCircle | src/components/tabs/ExponentialTab.tsx:29-34 | a single term traces the circle of radius \|a_0\| |
| Exponential.TableValues | src/components/tabs/ExponentialTab.tsx:77-108 | n in [1, 5], a in [0.1, 2], b in [1, 10], points in [100, 10000], with their steps |
| Exponential.ThetaSlider | src/components/tabs/ExponentialTab.tsx:231-247 | the θ_max slider shows [0.1, 4] in units of π with step 0.1 / π; the default is in range |
| Exponential.DefaultsWellFormed | src/components/tabs/ExponentialTab.tsx:9-15 | the defaults have two terms, each within the a and b ranges |
| Exponential.ExportName | src/components/tabs/ExponentialTab.tsx:69-72 | no `.` in the name, which ends in `psvg` |
| Exponential.ExportSvg | src/components/tabs/ExponentialTab.tsx:69-75 | the export name and a document exactly when the curve's box has width and height, namely the fitted 800 × 800 page |
| Lissajous3D.HandleParamChange | src/components/tabs/Lissajous3DTab.tsx:40-45 | longueur is stored as value × π, any other key as given; other fields are kept |
| Lissajous3D.BoxShown | src/components/tabs/Lissajous3DTab.tsx:134 | the number box shows longueur / π rounded to a whole number of tenths, within 0.05 of the slider's value, a tie going away from zero; other keys as stored |
| Lissajous3D.RangeFacts | src/components/tabs/Lissajous3DTab.tsx:177-223 | shown values in range bound the amplitudes to [0.1, 2], longueur / π to [0.1, 4] and points to [100, 10000]; the defaults are in range |
| Lissajous3D.KeyBounds | src/components/tabs/Lissajous3DTab.tsx:177-223 | the bound tables give each key group its min and max |
| Lissajous3D.DefaultsInRange | src/components/tabs/Lissajous3DTab.tsx:177-223 | the defaults lie in range |
| Lissajous3D.GeneratePoints | src/components/tabs/Lissajous3DTab.tsx:26-38 | N + 1 points, point i the figure at t = (i / N) · longueur · π |
| Lissajous3D.LengthTwicePi | src/components/tabs/Lissajous3DTab.tsx:31-43 | entering v shows v but sweeps v · π · π; the sweep is always the shown value times π² |
| Lissajous3D.FirstPoint | src/components/tabs/Lissajous3DTab.tsx:30-35 | the curve starts at (A sin(δπ), 0, C sin(φπ)) |
| Lissajous3D.FigureBounded | src/components/tabs/Lissajous3DTab.tsx:32-34 | each coordinate stays within its amplitude |
| Lissajous3D.CurveInBox | src/components/tabs/Lissajous3DTab.tsx:30-36 | every curve point stays in the box of the amplitudes |
| Lissajous3D.ExportName | src/components/tabs/Lissajous3DTab.tsx:59-67 | no `.` in the name, which ends in `p` + the extension |
| Lissajous3D.ProjectAll | src/utils/export.ts:160-161 | one projected point per curve point, through the camera |
| Lissajous3D.ExportSvg | src/components/tabs/Lissajous3DTab.tsx:47-63 | nothing without a camera; otherwise the projected curve's 800 × 800 document under the SVG name |
| Lissajous3D.ExportPly | src/components/tabs/Lissajous3DTab.tsx:65-78 | the PLY name and the PLY text of the strided curve, which always exists |
| Lissajous3D.ReducedPlyReadBack | src/components/tabs/Lissajous3DTab.tsx:72-78 | for any non-empty list, the reduced PLY text has ceil(len / stride) kept points, 10 + 2·kept + 1 lines, and the first point opens and closes the vertex list |
| Lissajous3D.PlyExportReadBack | src/components/tabs/Lissajous3DTab.tsx:65-78 | ceil((N + 1) / stride) kept samples, 10 + 2·kept + 1 lines, and the first point both opens and closes the vertex list |
| Clelie3D.BoxShown | src/components/tabs/Clelie3DTab.tsx:166 | the number box shows longueur / π rounded to a whole number of tenths, within 0.05 of the slider's value, a tie going away from zero; other keys as stored |
| Clelie3D.HandleParamChange | src/components/tabs/Clelie3DTab.tsx:39-44 | longueur is stored as value × π, any other key as given; other fields are kept |
| Clelie3D.RangeFacts | src/components/tabs/Clelie3DTab.tsx:201-229 | a in [0.1, 5], m in [1, 20], stored longueur in [0.1π, 2π²]; the default shows 2; the defaults are in range |
| Clelie3D.KeyBounds | src/components/tabs/Clelie3DTab.tsx:201-229 | the bound tables give each key its min and max, longueur up to 2π in displayed units |
| Clelie3D.DefaultsInRange | src/components/tabs/Clelie3DTab.tsx:201-229 | the default shows longueur as 2 and lies in range |
| Clelie3D.GeneratePoints | src/components/tabs/Clelie3DTab.tsx:21-37 | N + 1 points, point i the Clélie point at θ = (i / N) · longueur |
| Clelie3D.OnSphere | src/components/tabs/Clelie3DTab.tsx:29-31 | every formula point has x² + y² + z² = a² |
| Clelie3D.CurveOnSphere | src/components/tabs/Clelie3DTab.tsx:25-34 | every curve point lies on that sphere |
| Clelie3D.FirstPoint | src/components/tabs/Clelie3DTab.tsx:25-34 | the curve starts at the pole (0, 0, a) |
| Clelie3D.ExportName | src/components/tabs/Clelie3DTab.tsx:59-60 | no `.` in the name, which ends in `p` + the extension |
| Clelie3D.ExportPly | src/components/tabs/Clelie3DTab.tsx:98-111 | the PLY name and the PLY text of the strided curve, which always exists |
| Clelie3D.PlyVerticesOnSphere | src/components/tabs/Clelie3DTab.tsx:98-111 | every vertex of the PLY file, the closing repeat included, lies on the sphere |
| Clelie3D.ExportSvg | src/components/tabs/Clelie3DTab.tsx:46-65 | nothing without a mounted view; otherwise the SVG name and a document that contains the captured image verbatim |
| CurveVisualization.ScanBounds | src/components/CurveVisualization.tsx:28-37 | the scan loop computes the bounding box, which holds every point |
| CurveVisualization.ScanStep | src/components/CurveVisualization.tsx:31-36 | one iteration grows the box of the points seen so far by the next point |
| CurveVisualization.Extent | src/components/CurveVisualization.tsx:40-41 | a zero extent becomes 1, any other is kept |
| CurveVisualization.Scale | src/components/CurveVisualization.tsx:38-42 | the scale is positive, at most both axis fits, and equal to one of them |
| CurveVisualization.CentreToCentre | src/components/CurveVisualization.tsx:44-55 | the box centre is drawn at the canvas centre |
| CurveVisualization.AxisInside | src/components/CurveVisualization.tsx:44-55 | on one axis, a coordinate of the box is drawn within the margins |
| CurveVisualization.ScaleFitsBoth | src/components/CurveVisualization.tsx:38-42 | the chosen scale times each extent fits the canvas less both margins |
| CurveVisualization.PlaceWithInside | src/components/CurveVisualization.tsx:44-55 | with any positive scale that fits both extents, a point of the box is drawn inside the margins |
| CurveVisualization.PlacedInside | src/components/CurveVisualization.tsx:38-55 | every point of the box is drawn inside the canvas less its 20-pixel margin |
| CurveVisualization.PlaceWithDifferences | src/components/CurveVisualization.tsx:53-55 | with a positive scale, drawn differences are the scaled differences and order is kept on both axes |
| CurveVisualization.NoFlipUniformScale | src/components/CurveVisualization.tsx:53-55 | larger x and larger y are drawn further right and lower; distances scale by the one factor |
| CurveVisualization.PathCalls | src/components/CurveVisualization.tsx:53-62 | a `moveTo` for the first placed point and a `lineTo` for each later one, in order |
| CurveVisualization.Scaled | src/components/CurveVisualization.tsx:53-56 | each point moved to `center + scale · p` |
| CurveVisualization.Placed | src/components/CurveVisualization.tsx:27-56 | each point placed with its list's box |
| CurveVisualization.DrawingShape | src/components/CurveVisualization.tsx:22-64 | an empty list only clears; otherwise K + 5 calls, one `moveTo`, a `lineTo` per later point, all inside the margins, and a final `stroke` |
| CurveVisualization.TracePath | src/components/CurveVisualization.tsx:53-62 | the loop appends the path calls for the scaled points |
| CurveVisualization.StrokeCurve | src/components/CurveVisualization.tsx:27-64 | the non-empty branch appends the path set-up, the path calls for the placed points and the stroke |
| CurveVisualization.Render | src/components/CurveVisualization.tsx:11-65 | the effect appends exactly the drawing of the list to the context |
| Curve3DVisualization.ScenePoints | src/components/Curve3DVisualization.tsx:45-62 | the tab's points when given, otherwise N + 1 Lissajous points at t = (i / N) · longueur · π |
| Curve3DVisualization.SameCurveEitherWay | src/components/Curve3DVisualization.tsx:45-62 | the Lissajous tab's generator and the built-in loop give the same points |
| Curve3DVisualization.Segments | src/components/Curve3DVisualization.tsx:156-162 | the first k segments take 6k numbers |
| Curve3DVisualization.SegmentEntry | src/components/Curve3DVisualization.tsx:156-162 | number c of segment i is the start point's x, y, z, then the end point's, for c = 0..5 |
| Curve3DVisualization.SegmentPositions | src/components/Curve3DVisualization.tsx:150-166 | no geometry below two points; otherwise the buffer of all K − 1 segments |
| Curve3DVisualization.InnerPointsTwice | src/components/Curve3DVisualization.tsx:156-162 | each inner point is written twice, ending one segment and starting the next |
| Curve3DVisualization.MaxDimension | src/components/Curve3DVisualization.tsx:76 | the largest of the three sizes |
| Curve3DVisualization.StartWithinZoom | src/components/Curve3DVisualization.tsx:84-98 | on mobile and desktop the starting squared distance lies between the squared zoom limits |
| Curve3DVisualization.ShiftDistance | src/components/Curve3DVisualization.tsx:85-89 | moving by (d, d, d) puts the camera at squared distance 3d² |
| Curve3DVisualization.Scene.constructor | src/components/Curve3DVisualization.tsx:33-34 | mobile iff the window is narrower than 768, not yet framed; the zoom limits stand at 0 until the first `Fit` sets them |
| Curve3DVisualization.Scene.Resize | src/components/Curve3DVisualization.tsx:36-42 | the breakpoint is re-read, nothing else changes |
| Curve3DVisualization.Scene.CurveTypeChanged | src/components/Curve3DVisualization.tsx:144-147 | the framed flag is cleared, nothing else changes |
| Curve3DVisualization.Scene.Fit | src/components/Curve3DVisualization.tsx:70-100 | without points or controls nothing changes; otherwise the first framing sets the target to the box centre and the camera to centre + (d, d, d); the zoom limits always become 0.5 and 5 times the largest side |
| Curve3DVisualization.Scene.Mount | src/components/Curve3DVisualization.tsx:70-100 | at mount the framing effect frames the camera on the points' box and the curve-type effect then clears the flag again |
| Curve3DVisualization.Scene.MountThenUpdate | src/components/Curve3DVisualization.tsx:144-147 | after mount, the next update with points frames the camera a second time, on the new box, and raises the flag |
| Curve3DVisualization.FramedView | src/components/Curve3DVisualization.tsx:73-98 | after a first framing the camera sits within the zoom limits of the box centre |
| Curve3DVisualization.BoxOrdered | src/components/Curve3DVisualization.tsx:73 | the box of a non-empty list has its minimum corner below its maximum |

## Left out

- `Math.sin`, `Math.cos` and IEEE doubles: reals stand in for doubles. The trigonometric functions are parameters that satisfy only `sin 0 = 0`, `cos 0 = 1`, `sin² + cos² = 1` and `|sin| ≤ 1`. NaN and Infinity are not modelled.
- Sampling requires a whole `points` value of at least 1. With 0 or a fraction the source divides by zero or stops early.
- The trochoid tabs require r ≠ 0. The formulas divide by r, and their sliders keep r ≥ 0.1 (hypocycloid) or r ≥ 1 (hypotrochoid).
- Export.Svg2DFile: for a box with no width or no height it returns no document. With exactly one zero extent the source divides by zero on that axis, `Math.min` keeps the finite scale, and it writes a valid document: a vertical segment at x = 50, or a horizontal one at y = height − 50. The model omits that document. With both extents zero the source writes NaN coordinates.
- How JavaScript prints a number as text (`${x}`, `toFixed(1)` in file names, `toFixed(2)` in the cusp note) is an opaque parameter. The value a `toFixed(1)` number box shows is modelled as a number (`Controls.Tenths`).
- File delivery is browser I/O and is not modelled: `saveSvg`, `downloadFallback`, `saveFile`, the picker half of `savePly`, and the Clélie tab's picker and anchor download.
- The Clélie SVG export captures the WebGL canvas. The captured data URL is an input and the wait for the next frame is not modelled.
- `setTimeout`, `clearTimeout`, the `isAnimating` effect and `requestAnimationFrame` are scheduling. `Animator.Tick` returns whether a next tick is scheduled.
- The three.js camera matrices (`applyMatrix4`, `multiplyMatrices`) are a parameter `Camera.project` that yields NDC coordinates. BufferGeometry, OrbitControls, GizmoHelper, lights and the rendering itself are not modelled.
- `handleCameraChange` and the resize listener that calls `controls.update()` forward three.js state and are not modelled.
- The canvas element and context always exist in the model. The `!canvas` and `!ctx` early returns are not modelled.
- The stroke colour, width and background props the 2D Lissajous tab passes are ignored by `CurveVisualization`. The colour pickers are not modelled.
- JSX layout, labels, ThemeContext and routing are not modelled.
- `parseFloat`/`parseInt` of input text is not modelled. Handlers take the parsed number. The exponential tab parses its `b` inputs with `parseInt` although their step is 0.1; the model takes any real there.
- Exponential.HandleParamChange: indexed edits require an existing index. The inputs only offer indices below n. Writing past the end of a JavaScript array is not modelled.
- Animation.Animator.Tick: requires every selected scalar key to hold a number, and every indexed key into an array to be in range. Outside these the source computes with `undefined`.
- Hypocycloide.CuspLabel: for r = 0 it gives no note. The source's `params.r && (…)` then evaluates to the number 0, which React renders as the text "0"; that stray text is not modelled.
