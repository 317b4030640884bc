/** The hypotrochoid tab ("hypertrochoide" in the program): like the
    hypocycloid, but the tracing point sits at distance d from the rolling
    centre, and the tab emits each point with y negated. */
module Hypertrochoide {
  import opened Trigonometry
  import opened Geometry
  import opened Sampler
  import opened Controls
  import Export
  import Hypocycloide

  /** `HypertrochoideParams`. */
  datatype Params = Params(R: real, r: real, d: real, tours: real, points: real)

  datatype Key = BigR | SmallR | D | Tours | Points

  function Name(k: Key): string
  {
    match k
    case BigR => "R"
    case SmallR => "r"
    case D => "d"
    case Tours => "tours"
    case Points => "points"
  }

  function Get(p: Params, k: Key): real
  {
    match k
    case BigR => p.R
    case SmallR => p.r
    case D => p.d
    case Tours => p.tours
    case Points => p.points
  }

  const Defaults: Params := Params(5.0, 3.0, 5.0, 1.0, 1000.0)

  /** `handleParamChange`: `{...prev, [paramName]: value}`. */
  function HandleParamChange(p: Params, k: Key, value: real): (r: Params)
    ensures Get(r, k) == value
    ensures forall other :: other != k ==> Get(r, other) == Get(p, other)
  {
    match k
    case BigR => p.(R := value)
    case SmallR => p.(r := value)
    case D => p.(d := value)
    case Tours => p.(tours := value)
    case Points => p.(points := value)
  }

  const Bounds: Tables := Tables(
    map["R" := 1.0, "r" := 1.0, "d" := 0.0, "tours" := 0.1, "points" := 100.0],
    map["R" := 10.0, "r" := 10.0, "d" := 10.0, "tours" := 10.0, "points" := 10000.0],
    map["R" := 0.1, "r" := 0.1, "d" := 0.1, "tours" := 0.1, "points" := 100.0])

  predicate InRange(p: Params)
  {
    forall k :: MinOf(Bounds, Name(k)) <= Get(p, k) <= MaxOf(Bounds, Name(k))
  }

  /** The ranges: R and r in [1, 10], d in [0, 10] (its stored minimum 0 falls
      back to 0), tours in [0.1, 10], points in [100, 10000]; the rolling
      radius is then at least 1, and the defaults lie within. */
  lemma RangeFacts(p: Params)
    ensures InRange(p) ==> p.r >= 1.0 && 0.0 <= p.d <= 10.0 && 100.0 <= p.points <= 10000.0
    ensures InRange(Defaults)
  {
    if InRange(p) {
      assert MinOf(Bounds, Name(SmallR)) <= Get(p, SmallR);
      assert MinOf(Bounds, Name(D)) <= Get(p, D) <= MaxOf(Bounds, Name(D));
      assert MinOf(Bounds, Name(Points)) <= Get(p, Points) <= MaxOf(Bounds, Name(Points));
    }
    forall k ensures MinOf(Bounds, Name(k)) <= Get(Defaults, k) <= MaxOf(Bounds, Name(k)) {
    }
  }

  /** The traced point (x, y) for radii R, r and tracing distance d. */
  function Tracing(tr: Trig, R: real, r: real, d: real, t: real): Point2
    requires r != 0.0
  {
    var u := (R - r) * t / r;
    Point2((R - r) * tr.cos(t) + d * tr.cos(u), (R - r) * tr.sin(t) - d * tr.sin(u))
  }

  /** The point pushed for parameter t: `[x, -y]`. */
  function PointAt(tr: Trig, p: Params, t: real): Point2
    requires p.r != 0.0
  {
    var q := Tracing(tr, p.R, p.r, p.d, t);
    Point2(q.x, -q.y)
  }

  function Length(p: Params): real
  {
    p.tours * 2.0 * PI
  }

  /** What `generatePoints` returns. */
  function Curve(tr: Trig, p: Params): seq<Point2>
    requires IsCount(p.points) && p.r != 0.0
  {
    Sampled(Steps(p.points), Length(p), t => PointAt(tr, p, t))
  }

  /** `generatePoints`: N + 1 points, point i at t_i = (i / N) tours 2 pi. */
  method GeneratePoints(tr: Trig, p: Params) returns (points: seq<Point2>)
    requires IsCount(p.points) && p.r != 0.0
    ensures |points| == Steps(p.points) + 1
    ensures forall i :: 0 <= i < |points| ==>
              points[i] == PointAt(tr, p, (i as real / p.points) * (p.tours * 2.0 * PI))
    ensures points == Curve(tr, p)
  {
    var n := Steps(p.points);
    points := Sample(n, Length(p), t => PointAt(tr, p, t));
    forall i | 0 <= i < |points|
      ensures points[i] == PointAt(tr, p, (i as real / p.points) * (p.tours * 2.0 * PI))
    {
      assert n as real == p.points;
      assert At(i, n, Length(p)) == (i as real / p.points) * (p.tours * 2.0 * PI);
      assert points[i] == PointAt(tr, p, At(i, n, Length(p)));
    }
  }

  /** The curve starts on the x axis at R - r + d. */
  lemma FirstPoint(tr: Trig, p: Params)
    requires Laws(tr) && IsCount(p.points) && p.r != 0.0
    ensures Curve(tr, p)[0] == Point2(p.R - p.r + p.d, 0.0)
  {
    FirstSample(Steps(p.points), Length(p), t => PointAt(tr, p, t));
    var R, r, d := p.R, p.r, p.d;
    assert (R - r) * 0.0 / r == 0.0;
    assert Tracing(tr, R, r, d, 0.0) == Point2(R - r + d, 0.0);
  }

  /** The hypocycloid with the same R, r, tours and points, as a hypotrochoid. */
  function FromHypocycloid(h: Hypocycloide.Params): Params
  {
    Params(h.R, h.r, h.r, h.tours, h.points)
  }

  /** With d = r the tracing point is on the rim: every point is the
      hypocycloid's point with y negated. */
  lemma RimIsHypocycloid(tr: Trig, h: Hypocycloide.Params)
    requires IsCount(h.points) && h.r != 0.0
    ensures |Curve(tr, FromHypocycloid(h))| == |Hypocycloide.Curve(tr, h)|
    ensures forall i :: 0 <= i < |Curve(tr, FromHypocycloid(h))| ==>
              Curve(tr, FromHypocycloid(h))[i] ==
              Point2(Hypocycloide.Curve(tr, h)[i].x, -Hypocycloide.Curve(tr, h)[i].y)
  {
    var p := FromHypocycloid(h);
    var n := Steps(h.points);
    SampledShape(n, Length(p), t => PointAt(tr, p, t));
    SampledShape(n, Hypocycloide.Length(h), t => Hypocycloide.PointAt(tr, h, t));
    forall i | 0 <= i <= n
      ensures Curve(tr, p)[i] == Point2(Hypocycloide.Curve(tr, h)[i].x, -Hypocycloide.Curve(tr, h)[i].y)
    {
      var t := At(i, n, Length(p));
      assert Curve(tr, p)[i] == PointAt(tr, p, t);
      assert Hypocycloide.Curve(tr, h)[i] == Hypocycloide.PointAt(tr, h, t);
      assert Tracing(tr, h.R, h.r, h.r, t) == Hypocycloide.Rolling(tr, h.R, h.r, t);
    }
  }

  /** `Hypertrochoide_R${R}_r${r}_d${d}_tours${tours}_pts${points}.svg` with every `.` made `p`. */
  function ExportName(p: Params, render: real -> string): (name: string)
    ensures '.' !in name
    ensures |name| > 4 && name[|name| - 4..] == "psvg"
  {
    var stem := "Hypertrochoide_R" + render(p.R) + "_r" + render(p.r) + "_d" + render(p.d)
                + "_tours" + render(p.tours) + "_pts" + render(p.points);
    SvgNameTail(stem);
    FileName(stem, "svg")
  }

  /** `handleExportSVG`: the curve through `saveSvg2D`. */
  function ExportSvg(tr: Trig, p: Params, render: real -> string)
    : (d: (string, Export.Option<string>))
    requires IsCount(p.points) && p.r != 0.0
    ensures d.0 == ExportName(p, render)
    ensures '.' !in d.0
    ensures d.1.Some? <==> Export.NonDegenerate(BoundingBox(Curve(tr, p)))
    ensures d.1.Some? ==> d.1.value == Export.Svg2DContent(Curve(tr, p), 800.0, 800.0, render)
  {
    (ExportName(p, render), Export.Svg2DFile(Curve(tr, p), render))
  }
}
