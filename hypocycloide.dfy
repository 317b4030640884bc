/** The hypocycloid tab: the point generator, the parameter handler, the
    bound tables, the cusp-count label and the export file name. */
module Hypocycloide {
  import opened Trigonometry
  import opened Geometry
  import opened Sampler
  import opened Controls
  import Export

  datatype Option<T> = None | Some(value: T)

  /** `HypocycloideParams`: fixed radius R, rolling radius r, turns, point count. */
  datatype Params = Params(R: real, r: real, tours: real, points: real)

  datatype Key = BigR | SmallR | Tours | Points

  function Name(k: Key): string
  {
    match k
    case BigR => "R"
    case SmallR => "r"
    case Tours => "tours"
    case Points => "points"
  }

  function Get(p: Params, k: Key): real
  {
    match k
    case BigR => p.R
    case SmallR => p.r
    case Tours => p.tours
    case Points => p.points
  }

  const Defaults: Params := Params(5.0, 2.0, 1.0, 1000.0)

  /** `handleParamChange`: `{...prev, [paramName]: value}`. */
  function HandleParamChange(p: Params, k: Key, value: real): (r: Params)
    ensures Get(r, k) == value
    ensures forall other :: other != k ==> Get(r, other) == Get(p, other)
  {
    match k
    case BigR => p.(R := value)
    case SmallR => p.(r := value)
    case Tours => p.(tours := value)
    case Points => p.(points := value)
  }

  const Bounds: Tables := Tables(
    map["R" := 1.0, "r" := 0.1, "tours" := 0.1, "points" := 100.0],
    map["R" := 10.0, "r" := 5.0, "tours" := 10.0, "points" := 10000.0],
    map["R" := 0.1, "r" := 0.1, "tours" := 0.1, "points" := 100.0])

  /** Inside the slider ranges. */
  predicate InRange(p: Params)
  {
    forall k :: MinOf(Bounds, Name(k)) <= Get(p, k) <= MaxOf(Bounds, Name(k))
  }

  /** The ranges: R in [1, 10], r in [0.1, 5], tours in [0.1, 10], points in
      [100, 10000]; within them the rolling radius is positive, so the
      formula's division by r is defined, and the defaults lie within them. */
  lemma RangeFacts(p: Params)
    ensures InRange(p) ==> p.r >= 0.1 && 1.0 <= p.R <= 10.0 && 100.0 <= p.points <= 10000.0
    ensures InRange(Defaults)
  {
    if InRange(p) {
      assert MinOf(Bounds, Name(SmallR)) <= Get(p, SmallR);
      assert MinOf(Bounds, Name(BigR)) <= Get(p, BigR) <= MaxOf(Bounds, Name(BigR));
      assert MinOf(Bounds, Name(Points)) <= Get(p, Points) <= MaxOf(Bounds, Name(Points));
    }
    forall k ensures MinOf(Bounds, Name(k)) <= Get(Defaults, k) <= MaxOf(Bounds, Name(k)) {
    }
  }

  /** The curve at parameter t for radii R and r; the second cosine and sine
      run at (R - r) t / r. */
  function Rolling(tr: Trig, R: real, r: real, t: real): Point2
    requires r != 0.0
  {
    var u := (R - r) * t / r;
    Point2((R - r) * tr.cos(t) + r * tr.cos(u), (R - r) * tr.sin(t) - r * tr.sin(u))
  }

  function PointAt(tr: Trig, p: Params, t: real): Point2
    requires p.r != 0.0
  {
    Rolling(tr, p.R, p.r, t)
  }

  /** The parameter range: `tours` full turns. */
  function Length(p: Params): real
  {
    p.tours * 2.0 * PI
  }

  /** What `generatePoints` returns. */
  function Curve(tr: Trig, p: Params): seq<Point2>
    requires IsCount(p.points) && p.r != 0.0
  {
    Sampled(Steps(p.points), Length(p), t => PointAt(tr, p, t))
  }

  /** `generatePoints`: N + 1 points, point i at t_i = (i / N) tours 2 pi. */
  method GeneratePoints(tr: Trig, p: Params) returns (points: seq<Point2>)
    requires IsCount(p.points) && p.r != 0.0
    ensures |points| == Steps(p.points) + 1
    ensures forall i :: 0 <= i < |points| ==>
              points[i] == PointAt(tr, p, (i as real / p.points) * (p.tours * 2.0 * PI))
    ensures points == Curve(tr, p)
  {
    var n := Steps(p.points);
    points := Sample(n, Length(p), t => PointAt(tr, p, t));
    forall i | 0 <= i < |points|
      ensures points[i] == PointAt(tr, p, (i as real / p.points) * (p.tours * 2.0 * PI))
    {
      assert n as real == p.points;
      assert At(i, n, Length(p)) == (i as real / p.points) * (p.tours * 2.0 * PI);
      assert points[i] == PointAt(tr, p, At(i, n, Length(p)));
    }
  }

  /** The curve starts on the x axis at distance R: at t = 0 the two circles
      contribute R - r and r. */
  lemma FirstPoint(tr: Trig, p: Params)
    requires Laws(tr) && IsCount(p.points) && p.r != 0.0
    ensures Curve(tr, p)[0] == Point2(p.R, 0.0)
  {
    FirstSample(Steps(p.points), Length(p), t => PointAt(tr, p, t));
    var R, r := p.R, p.r;
    assert (R - r) * 0.0 / r == 0.0;
    assert Rolling(tr, R, r, 0.0) == Point2(R, 0.0);
  }

  predicate IsInteger(x: real)
  {
    x.Floor as real == x
  }

  /** The note under the R slider: `k = R/r` and, for a whole ratio, the cusp count. */
  datatype CuspNote = CuspNote(ratio: real, cusps: Option<int>)

  /** `params.r && ...`: no note for r = 0, else the ratio, with the cusp
      count exactly when the ratio is a whole number. */
  function CuspLabel(p: Params): (note: Option<CuspNote>)
    ensures note.None? <==> p.r == 0.0
    ensures note.Some? ==> note.value.ratio * p.r == p.R
    ensures note.Some? ==> (note.value.cusps.Some? <==> IsInteger(p.R / p.r))
    ensures note.Some? && note.value.cusps.Some? ==> note.value.cusps.value as real * p.r == p.R
  {
    if p.r == 0.0 then None
    else
      var k := p.R / p.r;
      Some(CuspNote(k, if IsInteger(k) then Some(k.Floor) else None))
  }

  /** The default curve (R = 5, r = 2) shows the ratio 2.5 and no cusp count;
      R = 6, r = 2 shows 3 cusps. */
  lemma CuspExamples()
    ensures CuspLabel(Defaults) == Some(CuspNote(2.5, None))
    ensures CuspLabel(Params(6.0, 2.0, 1.0, 1000.0)) == Some(CuspNote(3.0, Some(3)))
  {
    assert (2.5).Floor == 2;
    assert (3.0).Floor == 3;
  }

  /** `Hypocycloide_R${R}_r${r}_tours${tours}_pts${points}.svg` with every `.` made `p`. */
  function ExportName(p: Params, render: real -> string): (name: string)
    ensures '.' !in name
    ensures |name| > 4 && name[|name| - 4..] == "psvg"
  {
    var stem := "Hypocycloide_R" + render(p.R) + "_r" + render(p.r)
                + "_tours" + render(p.tours) + "_pts" + render(p.points);
    SvgNameTail(stem);
    FileName(stem, "svg")
  }

  /** `handleExportSVG`: the curve through `saveSvg2D`. */
  function ExportSvg(tr: Trig, p: Params, render: real -> string)
    : (d: (string, Export.Option<string>))
    requires IsCount(p.points) && p.r != 0.0
    ensures d.0 == ExportName(p, render)
    ensures '.' !in d.0
    ensures d.1.Some? <==> Export.NonDegenerate(BoundingBox(Curve(tr, p)))
    ensures d.1.Some? ==> d.1.value == Export.Svg2DContent(Curve(tr, p), 800.0, 800.0, render)
  {
    (ExportName(p, render), Export.Svg2DFile(Curve(tr, p), render))
  }
}
