/** The Maurer rose tab: the rose sin(k theta) traced at angles theta_n that
    advance by n d degrees per unit of the sweep, the parameter handler, the
    bound tables and the export file name. */
module MaurerRose {
  import opened Trigonometry
  import opened Geometry
  import opened Sampler
  import opened Controls
  import Export

  /** `MaurerRoseParams`: segments n, angle d in degrees, shape k, point count. */
  datatype Params = Params(n: real, d: real, k: real, points: real)

  datatype Key = N | D | K | Points

  function Name(key: Key): string
  {
    match key
    case N => "n"
    case D => "d"
    case K => "k"
    case Points => "points"
  }

  function Get(p: Params, key: Key): real
  {
    match key
    case N => p.n
    case D => p.d
    case K => p.k
    case Points => p.points
  }

  const Defaults: Params := Params(6.0, 71.0, 2.0, 1000.0)

  /** `handleParamChange`: `{...prev, [paramName]: value}`. */
  function HandleParamChange(p: Params, key: Key, value: real): (r: Params)
    ensures Get(r, key) == value
    ensures forall other :: other != key ==> Get(r, other) == Get(p, other)
  {
    match key
    case N => p.(n := value)
    case D => p.(d := value)
    case K => p.(k := value)
    case Points => p.(points := value)
  }

  const Bounds: Tables := Tables(
    map["n" := 1.0, "d" := 1.0, "k" := 1.0, "points" := 100.0],
    map["n" := 20.0, "d" := 180.0, "k" := 10.0, "points" := 10000.0],
    map["n" := 1.0, "d" := 1.0, "k" := 0.1, "points" := 100.0])

  predicate InRange(p: Params)
  {
    forall key :: MinOf(Bounds, Name(key)) <= Get(p, key) <= MaxOf(Bounds, Name(key))
  }

  /** The ranges: n in [1, 20], d in [1, 180], k in [1, 10] with step 0.1,
      points in [100, 10000]; the defaults lie within. */
  lemma RangeFacts(p: Params)
    ensures InRange(p) ==> 1.0 <= p.n <= 20.0 && 1.0 <= p.d <= 180.0 && 1.0 <= p.k <= 10.0
    ensures StepOf(Bounds, Name(K)) == 0.1
    ensures InRange(Defaults)
  {
    if InRange(p) {
      assert MinOf(Bounds, Name(N)) <= Get(p, N) <= MaxOf(Bounds, Name(N));
      assert MinOf(Bounds, Name(D)) <= Get(p, D) <= MaxOf(Bounds, Name(D));
      assert MinOf(Bounds, Name(K)) <= Get(p, K) <= MaxOf(Bounds, Name(K));
    }
    forall key ensures MinOf(Bounds, Name(key)) <= Get(Defaults, key) <= MaxOf(Bounds, Name(key)) {
    }
  }

  /** theta_n for a sweep angle `theta` in degrees: n d times theta in radians. */
  function Angle(n: real, d: real, theta: real): real
  {
    n * d * ((theta * PI) / 180.0)
  }

  /** The rose point at angle a: (sin(k a) cos a, sin(k a) sin a). */
  function Rose(tr: Trig, k: real, a: real): Point2
  {
    Point2(tr.sin(k * a) * tr.cos(a), tr.sin(k * a) * tr.sin(a))
  }

  function PointAt(tr: Trig, p: Params, theta: real): Point2
  {
    Rose(tr, p.k, Angle(p.n, p.d, theta))
  }

  /** What `generatePoints` returns: the sweep runs over 360 degrees. */
  function Curve(tr: Trig, p: Params): seq<Point2>
    requires IsCount(p.points)
  {
    Sampled(Steps(p.points), 360.0, theta => PointAt(tr, p, theta))
  }

  /** `generatePoints`: N + 1 points; point i is the rose at
      theta_n = n d 2 pi i / N. */
  method GeneratePoints(tr: Trig, p: Params) returns (points: seq<Point2>)
    requires IsCount(p.points)
    ensures |points| == Steps(p.points) + 1
    ensures forall i :: 0 <= i < |points| ==>
              points[i] == Rose(tr, p.k, SampleAngle(p, i))
    ensures points == Curve(tr, p)
  {
    var steps := Steps(p.points);
    points := Sample(steps, 360.0, theta => PointAt(tr, p, theta));
    forall i | 0 <= i < |points|
      ensures points[i] == Rose(tr, p.k, SampleAngle(p, i))
    {
      assert points[i] == PointAt(tr, p, At(i, steps, 360.0));
      SampleIsRose(tr, p, i);
    }
  }

  /** theta_n of sample i: n d 2 pi i / N. */
  function SampleAngle(p: Params, i: nat): real
    requires IsCount(p.points)
  {
    p.n * p.d * (2.0 * PI * i as real / Steps(p.points) as real)
  }

  lemma SampleIsRose(tr: Trig, p: Params, i: nat)
    requires IsCount(p.points)
    ensures PointAt(tr, p, At(i, Steps(p.points), 360.0)) == Rose(tr, p.k, SampleAngle(p, i))
  {
    var x := At(i, Steps(p.points), 360.0);
    AngleOfSample(p.n, p.d, i, Steps(p.points));
    assert Angle(p.n, p.d, x) == SampleAngle(p, i);
    assert PointAt(tr, p, x) == Rose(tr, p.k, Angle(p.n, p.d, x));
  }

  /** Degrees to radians over the 360-degree sweep: sample i of N is at
      theta_n = n d 2 pi i / N. */
  lemma AngleOfSample(n: real, d: real, i: nat, steps: nat)
    requires steps > 0
    ensures Angle(n, d, At(i, steps, 360.0)) == n * d * (2.0 * PI * i as real / steps as real)
  {
    var f := i as real / steps as real;
    assert At(i, steps, 360.0) == f * 360.0;
    assert (f * 360.0 * PI) / 180.0 == 2.0 * PI * f;
    assert 2.0 * PI * f == 2.0 * PI * i as real / steps as real;
  }

  /** Every rose point lies in the closed unit disk: x^2 + y^2 = sin^2(k a). */
  lemma RoseInUnitDisk(tr: Trig, k: real, a: real)
    requires Laws(tr)
    ensures var q := Rose(tr, k, a);
            q.x * q.x + q.y * q.y == tr.sin(k * a) * tr.sin(k * a) <= 1.0
  {
    var s, c, t := tr.sin(k * a), tr.cos(a), tr.sin(a);
    assert c * c + t * t == 1.0 by {
      assert tr.sin(a) * tr.sin(a) + tr.cos(a) * tr.cos(a) == 1.0;
    }
    assert (s * c) * (s * c) + (s * t) * (s * t) == s * s * (c * c + t * t);
    SinSquaredAtMostOne(tr, k * a);
  }

  /** Every point of the curve lies in the closed unit disk. */
  lemma CurveInUnitDisk(tr: Trig, p: Params, i: nat)
    requires Laws(tr) && IsCount(p.points) && i < |Curve(tr, p)|
    ensures Curve(tr, p)[i].x * Curve(tr, p)[i].x + Curve(tr, p)[i].y * Curve(tr, p)[i].y <= 1.0
  {
    var steps := Steps(p.points);
    assert Curve(tr, p)[i] == PointAt(tr, p, At(i, steps, 360.0));
    RoseInUnitDisk(tr, p.k, Angle(p.n, p.d, At(i, steps, 360.0)));
  }

  /** The curve starts at the origin. */
  lemma FirstPoint(tr: Trig, p: Params)
    requires Laws(tr) && IsCount(p.points)
    ensures Curve(tr, p)[0] == Point2(0.0, 0.0)
  {
    FirstSample(Steps(p.points), 360.0, theta => PointAt(tr, p, theta));
    var n, d, k := p.n, p.d, p.k;
    assert Angle(n, d, 0.0) == 0.0;
    assert k * 0.0 == 0.0;
  }

  /** `MaurerRose_n${n}_d${d}_k${k}_pts${points}.svg` with every `.` made `p`. */
  function ExportName(p: Params, render: real -> string): (name: string)
    ensures '.' !in name
    ensures |name| > 4 && name[|name| - 4..] == "psvg"
  {
    var stem := "MaurerRose_n" + render(p.n) + "_d" + render(p.d) + "_k" + render(p.k)
                + "_pts" + render(p.points);
    SvgNameTail(stem);
    FileName(stem, "svg")
  }

  /** `handleExportSVG`: the curve through `saveSvg2D`. */
  function ExportSvg(tr: Trig, p: Params, render: real -> string)
    : (d: (string, Export.Option<string>))
    requires IsCount(p.points)
    ensures d.0 == ExportName(p, render)
    ensures '.' !in d.0
    ensures d.1.Some? <==> Export.NonDegenerate(BoundingBox(Curve(tr, p)))
    ensures d.1.Some? ==> d.1.value == Export.Svg2DContent(Curve(tr, p), 800.0, 800.0, render)
  {
    (ExportName(p, render), Export.Svg2DFile(Curve(tr, p), render))
  }
}
