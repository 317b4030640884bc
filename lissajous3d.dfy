/** The 3D Lissajous tab: the point generator, the parameter handler (which
    stores longueur times pi while the sampler multiplies by pi again), the
    slider tables, and the two exports (projected SVG, downsampled PLY). */
module Lissajous3D {
  import opened Trigonometry
  import opened Geometry
  import opened Sampler
  import opened Controls
  import Export

  /** `Curve3DParams`. */
  datatype Params = Params(A: real, B: real, C: real, p: real, q: real, r: real,
                           delta: real, phi: real, longueur: real, points: real)

  datatype Key = AmplitudeX | AmplitudeY | AmplitudeZ | FrequencyX | FrequencyY | FrequencyZ
               | PhaseX | PhaseZ | Length | Count

  function Name(k: Key): string
  {
    match k
    case AmplitudeX => "A"
    case AmplitudeY => "B"
    case AmplitudeZ => "C"
    case FrequencyX => "p"
    case FrequencyY => "q"
    case FrequencyZ => "r"
    case PhaseX => "delta"
    case PhaseZ => "phi"
    case Length => "longueur"
    case Count => "points"
  }

  function Get(prm: Params, k: Key): real
  {
    match k
    case AmplitudeX => prm.A
    case AmplitudeY => prm.B
    case AmplitudeZ => prm.C
    case FrequencyX => prm.p
    case FrequencyY => prm.q
    case FrequencyZ => prm.r
    case PhaseX => prm.delta
    case PhaseZ => prm.phi
    case Length => prm.longueur
    case Count => prm.points
  }

  /** The initial state; longueur starts at 2 itself, not 2 pi. */
  const Defaults: Params := Params(1.0, 1.0, 1.0, 2.0, 3.0, 4.0, 0.0, 0.0, 2.0, 1000.0)

  /** `handleParamChange`: longueur is stored as value times pi, every other key as given. */
  function HandleParamChange(prm: Params, k: Key, value: real): (res: Params)
    ensures Get(res, k) == (if k == Length then value * PI else value)
    ensures forall other :: other != k ==> Get(res, other) == Get(prm, other)
  {
    var v := if k == Length then value * PI else value;
    match k
    case AmplitudeX => prm.(A := v)
    case AmplitudeY => prm.(B := v)
    case AmplitudeZ => prm.(C := v)
    case FrequencyX => prm.(p := v)
    case FrequencyY => prm.(q := v)
    case FrequencyZ => prm.(r := v)
    case PhaseX => prm.(delta := v)
    case PhaseZ => prm.(phi := v)
    case Length => prm.(longueur := v)
    case Count => prm.(points := v)
  }

  /** What the slider shows: longueur divided by pi. */
  function Displayed(k: Key, stored: real): real
  {
    if k == Length then stored / PI else stored
  }

  /** What the number box shows: longueur divided by pi to one decimal
      (`toFixed(1)`, ties away from zero), anything else as stored. */
  function BoxShown(k: Key, stored: real): (r: real)
    ensures k != Length ==> r == stored
    ensures k == Length && Displayed(k, stored) >= 0.0 ==> Displayed(k, stored) - 0.05 < r <= Displayed(k, stored) + 0.05
    ensures k == Length && Displayed(k, stored) < 0.0 ==> Displayed(k, stored) - 0.05 <= r < Displayed(k, stored) + 0.05
    ensures k == Length ==> (r * 10.0).Floor as real == r * 10.0
  {
    if k == Length then Tenths(Displayed(k, stored)) else stored
  }

  const Bounds: Tables := Tables(
    map["A" := 0.1, "B" := 0.1, "C" := 0.1, "p" := 1.0, "q" := 1.0, "r" := 1.0,
        "delta" := 0.0, "phi" := 0.0, "longueur" := 0.1, "points" := 100.0],
    map["A" := 2.0, "B" := 2.0, "C" := 2.0, "p" := 10.0, "q" := 10.0, "r" := 10.0,
        "delta" := 2.0, "phi" := 2.0, "longueur" := 4.0, "points" := 10000.0],
    map["A" := 0.1, "B" := 0.1, "C" := 0.1, "p" := 1.0, "q" := 1.0, "r" := 1.0,
        "delta" := 0.1, "phi" := 0.1, "longueur" := 0.1, "points" := 100.0])

  /** Every shown value inside its slider range. */
  predicate InRange(prm: Params)
  {
    forall k :: MinOf(Bounds, Name(k)) <= Displayed(k, Get(prm, k)) <= MaxOf(Bounds, Name(k))
  }

  /** The bounds the tables give each key. */
  lemma KeyBounds(k: Key)
    ensures k in {AmplitudeX, AmplitudeY, AmplitudeZ} ==> MinOf(Bounds, Name(k)) == 0.1 && MaxOf(Bounds, Name(k)) == 2.0
    ensures k in {FrequencyX, FrequencyY, FrequencyZ} ==> MinOf(Bounds, Name(k)) == 1.0 && MaxOf(Bounds, Name(k)) == 10.0
    ensures k in {PhaseX, PhaseZ} ==> MinOf(Bounds, Name(k)) == 0.0 && MaxOf(Bounds, Name(k)) == 2.0
    ensures k == Length ==> MinOf(Bounds, Name(k)) == 0.1 && MaxOf(Bounds, Name(k)) == 4.0
    ensures k == Count ==> MinOf(Bounds, Name(k)) == 100.0 && MaxOf(Bounds, Name(k)) == 10000.0
  {
  }

  /** The defaults lie in range, longueur showing 2 / pi. */
  lemma DefaultsInRange()
    ensures InRange(Defaults)
  {
    forall k ensures MinOf(Bounds, Name(k)) <= Displayed(k, Get(Defaults, k)) <= MaxOf(Bounds, Name(k)) {
      KeyBounds(k);
    }
  }

  /** The ranges the sliders enforce on what they show; the defaults lie in
      them, longueur showing 2 / pi. */
  lemma RangeFacts(prm: Params)
    ensures InRange(prm) ==> 0.1 <= prm.A <= 2.0 && 0.1 <= prm.B <= 2.0 && 0.1 <= prm.C <= 2.0
    ensures InRange(prm) ==> 0.1 <= prm.longueur / PI <= 4.0 && 100.0 <= prm.points <= 10000.0
    ensures InRange(Defaults)
  {
    if InRange(prm) {
      KeyBounds(AmplitudeX);
      KeyBounds(AmplitudeY);
      KeyBounds(AmplitudeZ);
      KeyBounds(Length);
      KeyBounds(Count);
      assert MinOf(Bounds, Name(AmplitudeX)) <= Displayed(AmplitudeX, Get(prm, AmplitudeX)) <= MaxOf(Bounds, Name(AmplitudeX));
      assert MinOf(Bounds, Name(AmplitudeY)) <= Displayed(AmplitudeY, Get(prm, AmplitudeY)) <= MaxOf(Bounds, Name(AmplitudeY));
      assert MinOf(Bounds, Name(AmplitudeZ)) <= Displayed(AmplitudeZ, Get(prm, AmplitudeZ)) <= MaxOf(Bounds, Name(AmplitudeZ));
      assert MinOf(Bounds, Name(Length)) <= Displayed(Length, Get(prm, Length)) <= MaxOf(Bounds, Name(Length));
      assert MinOf(Bounds, Name(Count)) <= Displayed(Count, Get(prm, Count)) <= MaxOf(Bounds, Name(Count));
    }
    DefaultsInRange();
  }

  /** The figure at parameter t:
      (A sin(p t + delta pi), B sin(q t), C sin(r t + phi pi)). */
  function Figure(tr: Trig, A: real, B: real, C: real, p: real, q: real, r: real,
                  delta: real, phi: real, t: real): Vec3
  {
    Vec3(Wave(tr, A, p * t + delta * PI), Wave(tr, B, q * t), Wave(tr, C, r * t + phi * PI))
  }

  function PointAt(tr: Trig, prm: Params, t: real): Vec3
  {
    Figure(tr, prm.A, prm.B, prm.C, prm.p, prm.q, prm.r, prm.delta, prm.phi, t)
  }

  /** The range t runs over: the stored longueur times pi once more. */
  function Sweep(prm: Params): real
  {
    prm.longueur * PI
  }

  /** What `generatePoints` returns. */
  function Curve(tr: Trig, prm: Params): seq<Vec3>
    requires IsCount(prm.points)
  {
    Sampled(Steps(prm.points), Sweep(prm), t => PointAt(tr, prm, t))
  }

  /** `generatePoints`: N + 1 points, point i at t_i = (i / N) longueur pi. */
  method GeneratePoints(tr: Trig, prm: Params) returns (points: seq<Vec3>)
    requires IsCount(prm.points)
    ensures |points| == Steps(prm.points) + 1
    ensures forall i :: 0 <= i < |points| ==>
              points[i] == PointAt(tr, prm, (i as real / prm.points) * prm.longueur * PI)
    ensures points == Curve(tr, prm)
  {
    var n := Steps(prm.points);
    points := Sample(n, Sweep(prm), t => PointAt(tr, prm, t));
    forall i | 0 <= i < |points|
      ensures points[i] == PointAt(tr, prm, (i as real / prm.points) * prm.longueur * PI)
    {
      assert n as real == prm.points;
      assert At(i, n, Sweep(prm)) == (i as real / prm.points) * prm.longueur * PI;
    }
  }

  /** Entering v for longueur shows v again but sweeps t over v pi pi: the
      handler and the sampler both multiply by pi. In general the swept
      range is always the shown value times pi squared. */
  lemma LengthTwicePi(prm: Params, v: real)
    ensures Displayed(Length, HandleParamChange(prm, Length, v).longueur) == v
    ensures Sweep(HandleParamChange(prm, Length, v)) == v * PI * PI
    ensures Sweep(prm) == Displayed(Length, prm.longueur) * PI * PI
  {
  }

  /** The curve starts at (A sin(delta pi), 0, C sin(phi pi)). */
  lemma FirstPoint(tr: Trig, prm: Params)
    requires tr.sin(0.0) == 0.0 && IsCount(prm.points)
    ensures Curve(tr, prm)[0] == Vec3(prm.A * tr.sin(prm.delta * PI), 0.0, prm.C * tr.sin(prm.phi * PI))
  {
    FirstSample(Steps(prm.points), Sweep(prm), t => PointAt(tr, prm, t));
    var A, B, C, p, q, r, delta, phi := prm.A, prm.B, prm.C, prm.p, prm.q, prm.r, prm.delta, prm.phi;
    assert p * 0.0 + delta * PI == delta * PI;
    assert q * 0.0 == 0.0;
    assert r * 0.0 + phi * PI == phi * PI;
    assert Figure(tr, A, B, C, p, q, r, delta, phi, 0.0)
        == Vec3(Wave(tr, A, delta * PI), Wave(tr, B, 0.0), Wave(tr, C, phi * PI));
  }

  /** The figure stays in the box [-|A|, |A|] x [-|B|, |B|] x [-|C|, |C|]. */
  lemma FigureBounded(tr: Trig, A: real, B: real, C: real, p: real, q: real, r: real,
                      delta: real, phi: real, t: real)
    requires Laws(tr)
    ensures Abs(Figure(tr, A, B, C, p, q, r, delta, phi, t).x) <= Abs(A)
    ensures Abs(Figure(tr, A, B, C, p, q, r, delta, phi, t).y) <= Abs(B)
    ensures Abs(Figure(tr, A, B, C, p, q, r, delta, phi, t).z) <= Abs(C)
  {
    WaveBounded(tr, A, p * t + delta * PI);
    WaveBounded(tr, B, q * t);
    WaveBounded(tr, C, r * t + phi * PI);
  }

  /** Every point of the curve lies in that box. */
  lemma CurveInBox(tr: Trig, prm: Params, i: nat)
    requires Laws(tr) && IsCount(prm.points) && i < |Curve(tr, prm)|
    ensures Abs(Curve(tr, prm)[i].x) <= Abs(prm.A)
    ensures Abs(Curve(tr, prm)[i].y) <= Abs(prm.B)
    ensures Abs(Curve(tr, prm)[i].z) <= Abs(prm.C)
  {
    var t := At(i, Steps(prm.points), Sweep(prm));
    assert Curve(tr, prm)[i] == PointAt(tr, prm, t);
    FigureBounded(tr, prm.A, prm.B, prm.C, prm.p, prm.q, prm.r, prm.delta, prm.phi, t);
  }

  // ---------------------------------------------------------------- exports

  /** The file name of either export (delta and phi are not part of it). */
  function ExportName(prm: Params, ext: string, render: real -> string, fixed1: real -> string): (name: string)
    ensures '.' !in name
    ensures |name| > |ext| + 1 && name[|name| - |ext| - 1..] == "p" + Text.ReplaceDots(ext)
  {
    var stem := "Lissajous3D_A" + render(prm.A) + "_B" + render(prm.B) + "_C" + render(prm.C)
                + "_p" + render(prm.p) + "_q" + render(prm.q) + "_r" + render(prm.r)
                + "_L" + fixed1(prm.longueur / PI) + "pi_pts" + render(prm.points);
    FileNameTail(stem, ext);
    FileName(stem, ext)
  }

  /** A file offered for download. */
  datatype Download = Download(name: string, content: string)

  /** The camera's view and projection matrices applied to a point, perspective
      divide included: the point's normalised device coordinates. */
  datatype Camera = Camera(project: Vec3 -> Point2)

  function ProjectAll(camera: Camera, points: seq<Vec3>): (ndc: seq<Point2>)
    ensures |ndc| == |points|
    ensures forall i :: 0 <= i < |points| ==> ndc[i] == camera.project(points[i])
  {
    seq(|points|, i requires 0 <= i < |points| => camera.project(points[i]))
  }

  /** `handleExportSVG`: nothing without a camera; otherwise the 800 x 800
      document of the whole curve projected through the camera. */
  function ExportSvg(tr: Trig, prm: Params, camera: Export.Option<Camera>,
                     render: real -> string, fixed1: real -> string): (d: Export.Option<Download>)
    requires IsCount(prm.points)
    ensures d.None? <==> camera.None?
    ensures d.Some? ==> d.value.name == ExportName(prm, "svg", render, fixed1)
    ensures d.Some? ==>
              d.value.content == Export.Svg3DContent(ProjectAll(camera.value, Curve(tr, prm)), 800.0, 800.0, render)
  {
    match camera
    case None => Export.None
    case Some(c) =>
      Export.Some(Download(ExportName(prm, "svg", render, fixed1),
                           Export.Svg3DContent(ProjectAll(c, Curve(tr, prm)), 800.0, 800.0, render)))
  }

  /** `handleExportPLY`: the curve thinned to every `Stride`-th point, then written
      as a closed PLY polyline. The list is never empty, so a file is always made. */
  function ExportPly(tr: Trig, prm: Params, render: real -> string, fixed1: real -> string): (d: Download)
    requires IsCount(prm.points)
    ensures d.name == ExportName(prm, "ply", render, fixed1)
    ensures Export.PlyContent(ReducedForPly(Curve(tr, prm)), render) == Export.Some(d.content)
  {
    var reduced := ReducedForPly(Curve(tr, prm));
    Download(ExportName(prm, "ply", render, fixed1), Export.PlyContent(reduced, render).value)
  }

  /** The PLY file of any non-empty list, reduced as the export reduces it. */
  lemma ReducedPlyReadBack(c: seq<Vec3>, render: real -> string)
    requires |c| > 0 && Export.PlainNumbers(render)
    ensures var reduced := ReducedForPly(c);
            && |reduced| == (|c| + Stride(|c|) - 1) / Stride(|c|)
            && Export.PlyContent(reduced, render).Some?
            && var lines := Text.Split(Export.PlyContent(reduced, render).value, '\n');
               && |lines| == 10 + 2 * |reduced| + 1
               && lines[10] == Export.VertexLine(c[0], render)
               && lines[10 + |reduced|] == Export.VertexLine(c[0], render)
  {
    var reduced := ReducedForPly(c);
    KeptCount(c, Stride(|c|));
    Export.PlyReadBack(reduced, render);
  }

  /** Read back, the PLY export starts its vertex list with the curve's first
      point, lists one vertex per kept sample plus the closing one, and keeps
      ceil((N + 1) / stride) samples. */
  lemma PlyExportReadBack(tr: Trig, prm: Params, render: real -> string, fixed1: real -> string)
    requires IsCount(prm.points) && Export.PlainNumbers(render)
    ensures var c := Curve(tr, prm);
            var reduced := ReducedForPly(c);
            var lines := Text.Split(ExportPly(tr, prm, render, fixed1).content, '\n');
            && |reduced| == (|c| + Stride(|c|) - 1) / Stride(|c|)
            && |lines| == 10 + 2 * |reduced| + 1
            && lines[10] == Export.VertexLine(c[0], render)
            && lines[10 + |reduced|] == Export.VertexLine(c[0], render)
  {
    var c := Curve(tr, prm);
    assert |c| > 0 by {
      FirstSample(Steps(prm.points), Sweep(prm), t => PointAt(tr, prm, t));
    }
    ReducedPlyReadBack(c, render);
  }
}
