/** The exponential (sum of rotating terms) tab: the point generator, a sum
    of n terms a_j e^{i b_j theta} drawn with y negated; the handler that
    resizes the term lists when n changes; the tables; the SVG export. */
module Exponential {
  import opened Trigonometry
  import opened Geometry
  import opened Sampler
  import opened Controls
  import Export

  /** `ExponentialParams`: n terms, amplitudes a, speeds b. */
  datatype Params = Params(n: int, a: seq<real>, b: seq<real>, theta_max: real, points: real)

  const Defaults: Params := Params(2, [1.0, 0.5], [1.0, 2.0], 2.0 * PI, 1000.0)

  /** The term lists match a non-negative term count. A negative count (the
      number box accepts one) leaves lists the generator never reads. */
  predicate WellFormed(prm: Params)
  {
    prm.n >= 0 ==> |prm.a| == prm.n && |prm.b| == prm.n
  }

  /** How many times the loop `for (let j = 0; j < n; j++)` runs. */
  function Used(n: int): (k: nat)
    ensures n >= 0 ==> k == n
    ensures n < 0 ==> k == 0
  {
    if n < 0 then 0 else n
  }

  // ---------------------------------------------------------------- handleParamChange

  /** The calls the inputs make: `('n', v)`, `('a', v, i)`, `('b', v, i)`,
      `('theta_max', v)` and `('points', v)`. */
  datatype Edit =
    | Terms(count: int)
    | Amplitude(index: nat, value: real)
    | Speed(index: nat, value: real)
    | ThetaMax(value: real)
    | Count(value: real)

  /** An edit the handler can apply in place: an indexed edit names an existing term. */
  predicate Applicable(prm: Params, e: Edit)
  {
    match e
    case Amplitude(i, _) => i < |prm.a|
    case Speed(i, _) => i < |prm.b|
    case _ => true
  }

  /** `k` ones: the amplitudes the padding loop appends. */
  function Ones(k: nat): (r: seq<real>)
    ensures |r| == k && forall j :: 0 <= j < k ==> r[j] == 1.0
  {
    seq(k, j requires 0 <= j < k => 1.0)
  }

  /** The speeds the padding loop appends after `start` amplitudes: each new
      speed is the amplitude list's length right after its push. */
  function Counting(start: nat, k: nat): (r: seq<real>)
    ensures |r| == k && forall j :: 0 <= j < k ==> r[j] == (start + j + 1) as real
  {
    seq(k, j requires 0 <= j < k => (start + j + 1) as real)
  }

  /** How many pushes the loop `while (newA.length < value)` makes. */
  function Shortfall(len: nat, value: int): nat
  {
    if value > len then value - len else 0
  }

  /** Where `slice(0, end)` stops on a list of length `len`: a negative end
      counts from the back. */
  function SliceEnd(len: nat, end: int): (e: nat)
    ensures e <= len
    ensures 0 <= end <= len ==> e == end
  {
    if end < 0 then (if len + end >= 0 then len + end else 0)
    else if end <= len then end else len
  }

  function Slice(s: seq<real>, end: int): seq<real>
  {
    s[..SliceEnd(|s|, end)]
  }

  /** The new state after an edit, as a value. */
  function Edited(prm: Params, e: Edit): Params
    requires Applicable(prm, e)
  {
    match e
    case Terms(v) =>
      var k := Shortfall(|prm.a|, v);
      var newA := prm.a + Ones(k);
      var newB := prm.b + Counting(|prm.a|, k);
      prm.(n := v, a := Slice(newA, v), b := Slice(newB, v))
    case Amplitude(i, v) => prm.(a := prm.a[i := v])
    case Speed(i, v) => prm.(b := prm.b[i := v])
    case ThetaMax(v) => prm.(theta_max := v)
    case Count(v) => prm.(points := v)
  }

  /** `handleParamChange`: pad both lists while the amplitudes are fewer than
      the new count, then cut both to the count. */
  method HandleParamChange(prm: Params, e: Edit) returns (res: Params)
    requires Applicable(prm, e)
    ensures res == Edited(prm, e)
  {
    match e {
      case Terms(value) =>
        var newA, newB := prm.a, prm.b;
        while |newA| < value
          invariant |prm.a| <= |newA|
          invariant |newA| - |prm.a| <= Shortfall(|prm.a|, value)
          invariant newA == prm.a + Ones(|newA| - |prm.a|)
          invariant newB == prm.b + Counting(|prm.a|, |newA| - |prm.a|)
          decreases value - |newA|
        {
          newA := newA + [1.0];
          newB := newB + [|newA| as real];
        }
        assert |newA| - |prm.a| == Shortfall(|prm.a|, value);
        res := prm.(n := value, a := Slice(newA, value), b := Slice(newB, value));
      case Amplitude(i, v) =>
        var newA := prm.a;
        newA := newA[i := v];
        res := prm.(a := newA);
      case Speed(i, v) =>
        var newB := prm.b;
        newB := newB[i := v];
        res := prm.(b := newB);
      case ThetaMax(v) =>
        res := prm.(theta_max := v);
      case Count(v) =>
        res := prm.(points := v);
    }
  }

  /** Changing the term count to v >= 0 keeps the lists matched to the count:
      the first terms are kept, and each added term j (0-based) gets
      amplitude 1 and speed j + 1. */
  lemma TermsResize(prm: Params, v: int)
    requires WellFormed(prm) && prm.n >= 0 && v >= 0
    ensures var res := Edited(prm, Terms(v));
            && WellFormed(res) && res.n == v
            && (forall j :: 0 <= j < v && j < prm.n ==> res.a[j] == prm.a[j] && res.b[j] == prm.b[j])
            && (forall j :: prm.n <= j < v ==> res.a[j] == 1.0 && res.b[j] == (j + 1) as real)
            && res.theta_max == prm.theta_max && res.points == prm.points
  {
    var k := Shortfall(|prm.a|, v);
    var newA := prm.a + Ones(k);
    var newB := prm.b + Counting(|prm.a|, k);
    assert |newA| >= v && |newB| >= v;
    assert SliceEnd(|newA|, v) == v && SliceEnd(|newB|, v) == v;
  }

  /** Shrinking the count and growing it back does not restore the dropped
      terms: they come back as amplitude 1, speed j + 1. */
  lemma ShrinkThenGrow(prm: Params, v: int, j: nat)
    requires WellFormed(prm) && 0 <= v <= j < prm.n
    ensures var back := Edited(Edited(prm, Terms(v)), Terms(prm.n));
            WellFormed(back) && back.a[j] == 1.0 && back.b[j] == (j + 1) as real
  {
    TermsResize(prm, v);
    TermsResize(Edited(prm, Terms(v)), prm.n);
  }

  /** An indexed edit changes that one entry and nothing else, and keeps the shape. */
  lemma IndexedEdit(prm: Params, e: Edit)
    requires WellFormed(prm) && (e.Amplitude? || e.Speed?) && Applicable(prm, e)
    ensures var res := Edited(prm, e);
            && WellFormed(res)
            && (e.Amplitude? ==> res.a == prm.a[e.index := e.value] && res.b == prm.b)
            && (e.Speed? ==> res.b == prm.b[e.index := e.value] && res.a == prm.a)
            && res.n == prm.n && res.theta_max == prm.theta_max && res.points == prm.points
  {
  }

  /** A `theta_max` or `points` edit overwrites that one field and nothing else. */
  lemma ScalarEdit(prm: Params, e: Edit)
    requires e.ThetaMax? || e.Count?
    ensures var res := Edited(prm, e);
            && res.n == prm.n && res.a == prm.a && res.b == prm.b
            && (e.ThetaMax? ==> res.theta_max == e.value && res.points == prm.points)
            && (e.Count? ==> res.points == e.value && res.theta_max == prm.theta_max)
  {
  }

  // ---------------------------------------------------------------- generatePoints

  /** Term j's contribution to x and to y at angle theta. */
  function XTerm(tr: Trig, aj: real, bj: real, theta: real): real
  {
    aj * tr.cos(bj * theta)
  }

  function YTerm(tr: Trig, aj: real, bj: real, theta: real): real
  {
    aj * tr.sin(bj * theta)
  }

  /** The sums after the first `j` terms, added in order from 0. */
  function SumX(tr: Trig, a: seq<real>, b: seq<real>, j: nat, theta: real): real
    requires j <= |a| && j <= |b|
  {
    if j == 0 then 0.0 else SumX(tr, a, b, j - 1, theta) + XTerm(tr, a[j - 1], b[j - 1], theta)
  }

  function SumY(tr: Trig, a: seq<real>, b: seq<real>, j: nat, theta: real): real
    requires j <= |a| && j <= |b|
  {
    if j == 0 then 0.0 else SumY(tr, a, b, j - 1, theta) + YTerm(tr, a[j - 1], b[j - 1], theta)
  }

  /** The point at theta: the sum of the terms, with y negated. */
  function PointAt(tr: Trig, prm: Params, theta: real): Point2
    requires WellFormed(prm)
  {
    Point2(SumX(tr, prm.a, prm.b, Used(prm.n), theta), -SumY(tr, prm.a, prm.b, Used(prm.n), theta))
  }

  /** What `generatePoints` returns: theta runs from 0 to theta_max. */
  function Curve(tr: Trig, prm: Params): seq<Point2>
    requires WellFormed(prm) && IsCount(prm.points)
  {
    Sampled(Steps(prm.points), prm.theta_max, theta => PointAt(tr, prm, theta))
  }

  /** The inner loop: `x += a[j] cos(b[j] theta)`, `y += a[j] sin(b[j] theta)` for j < n. */
  method TermSums(tr: Trig, a: seq<real>, b: seq<real>, n: int, theta: real) returns (x: real, y: real)
    requires n <= |a| && n <= |b|
    ensures x == SumX(tr, a, b, Used(n), theta) && y == SumY(tr, a, b, Used(n), theta)
  {
    x, y := 0.0, 0.0;
    var j := 0;
    while j < n
      invariant 0 <= j <= Used(n)
      invariant x == SumX(tr, a, b, j, theta) && y == SumY(tr, a, b, j, theta)
    {
      x := x + XTerm(tr, a[j], b[j], theta);
      y := y + YTerm(tr, a[j], b[j], theta);
      j := j + 1;
    }
  }

  /** `generatePoints`: for i in 0..N, theta_i = (i / N) theta_max, the point
      (x, -y) of the term sums. */
  method GeneratePoints(tr: Trig, prm: Params) returns (points: seq<Point2>)
    requires WellFormed(prm) && IsCount(prm.points)
    ensures |points| == Steps(prm.points) + 1
    ensures forall i :: 0 <= i < |points| ==>
              points[i] == PointAt(tr, prm, (i as real / prm.points) * prm.theta_max)
    ensures points == Curve(tr, prm)
  {
    var numPoints := Steps(prm.points);
    points := [];
    var i := 0;
    while i <= numPoints
      invariant 0 <= i <= numPoints + 1
      invariant |points| == i
      invariant forall k :: 0 <= k < i ==> points[k] == PointAt(tr, prm, At(k, numPoints, prm.theta_max))
    {
      var theta := At(i, numPoints, prm.theta_max);
      var x, y := TermSums(tr, prm.a, prm.b, prm.n, theta);
      points := points + [Point2(x, -y)];
      i := i + 1;
    }
    assert numPoints as real == prm.points;
    forall k | 0 <= k < |points|
      ensures points[k] == PointAt(tr, prm, (k as real / prm.points) * prm.theta_max)
    {
      assert At(k, numPoints, prm.theta_max) == (k as real / prm.points) * prm.theta_max;
    }
  }

  // ---------------------------------------------------------------- properties

  /** The sum of the first j amplitudes and of their absolute values. */
  function Total(a: seq<real>, j: nat): real
    requires j <= |a|
  {
    if j == 0 then 0.0 else Total(a, j - 1) + a[j - 1]
  }

  function AbsTotal(a: seq<real>, j: nat): real
    requires j <= |a|
  {
    if j == 0 then 0.0 else AbsTotal(a, j - 1) + Abs(a[j - 1])
  }

  /** At theta = 0 every term points along the x axis. */
  lemma {:induction false} SumsAtZero(tr: Trig, a: seq<real>, b: seq<real>, j: nat)
    requires tr.sin(0.0) == 0.0 && tr.cos(0.0) == 1.0
    requires j <= |a| && j <= |b|
    ensures SumX(tr, a, b, j, 0.0) == Total(a, j)
    ensures SumY(tr, a, b, j, 0.0) == 0.0
  {
    if j > 0 {
      SumsAtZero(tr, a, b, j - 1);
      assert b[j - 1] * 0.0 == 0.0;
    }
  }

  /** The curve starts at (a_0 + ... + a_{n-1}, 0). */
  lemma FirstPoint(tr: Trig, prm: Params)
    requires tr.sin(0.0) == 0.0 && tr.cos(0.0) == 1.0
    requires WellFormed(prm) && IsCount(prm.points)
    ensures Curve(tr, prm)[0] == Point2(Total(prm.a, Used(prm.n)), 0.0)
  {
    FirstSample(Steps(prm.points), prm.theta_max, theta => PointAt(tr, prm, theta));
    SumsAtZero(tr, prm.a, prm.b, Used(prm.n));
  }

  lemma XTermBounded(tr: Trig, aj: real, bj: real, theta: real)
    requires Laws(tr)
    ensures Abs(XTerm(tr, aj, bj, theta)) <= Abs(aj)
  {
    CosBounded(tr, bj * theta);
    Damped(aj, tr.cos(bj * theta));
  }

  lemma YTermBounded(tr: Trig, aj: real, bj: real, theta: real)
    requires Laws(tr)
    ensures Abs(YTerm(tr, aj, bj, theta)) <= Abs(aj)
  {
    SinBounded(tr, bj * theta);
    Damped(aj, tr.sin(bj * theta));
  }

  /** The triangle inequality, one term at a time. */
  lemma AddBounded(s: real, t: real, bs: real, bt: real)
    requires Abs(s) <= bs && Abs(t) <= bt
    ensures Abs(s + t) <= bs + bt
  {
  }

  /** Neither sum exceeds the sum of the amplitudes' absolute values. */
  lemma {:induction false} SumsBounded(tr: Trig, a: seq<real>, b: seq<real>, j: nat, theta: real)
    requires Laws(tr) && j <= |a| && j <= |b|
    ensures Abs(SumX(tr, a, b, j, theta)) <= AbsTotal(a, j)
    ensures Abs(SumY(tr, a, b, j, theta)) <= AbsTotal(a, j)
  {
    if j > 0 {
      SumsBounded(tr, a, b, j - 1, theta);
      XTermBounded(tr, a[j - 1], b[j - 1], theta);
      YTermBounded(tr, a[j - 1], b[j - 1], theta);
      AddBounded(SumX(tr, a, b, j - 1, theta), XTerm(tr, a[j - 1], b[j - 1], theta),
                 AbsTotal(a, j - 1), Abs(a[j - 1]));
      AddBounded(SumY(tr, a, b, j - 1, theta), YTerm(tr, a[j - 1], b[j - 1], theta),
                 AbsTotal(a, j - 1), Abs(a[j - 1]));
    }
  }

  /** Every point of the curve lies in the square of half-side |a_0| + ... + |a_{n-1}|. */
  lemma CurveBounded(tr: Trig, prm: Params, i: nat)
    requires Laws(tr) && WellFormed(prm) && IsCount(prm.points) && i < |Curve(tr, prm)|
    ensures Abs(Curve(tr, prm)[i].x) <= AbsTotal(prm.a, Used(prm.n))
    ensures Abs(Curve(tr, prm)[i].y) <= AbsTotal(prm.a, Used(prm.n))
  {
    var theta := At(i, Steps(prm.points), prm.theta_max);
    assert Curve(tr, prm)[i] == PointAt(tr, prm, theta);
    SumsBounded(tr, prm.a, prm.b, Used(prm.n), theta);
  }

  /** Typing a negative count: the loop adds no term, so every point of the
      curve is the origin. */
  lemma NegativeTermsAtOrigin(tr: Trig, prm: Params, v: int, i: nat)
    requires v < 0 && IsCount(prm.points)
    ensures var res := Edited(prm, Terms(v));
            && WellFormed(res) && res.n == v
            && (i < |Curve(tr, res)| ==> Curve(tr, res)[i] == Point2(0.0, 0.0))
  {
    var res := Edited(prm, Terms(v));
    SampledShape(Steps(res.points), res.theta_max, theta => PointAt(tr, res, theta));
  }

  lemma CircleAlgebra(r: real, c: real, s: real)
    requires c * c + s * s == 1.0
    ensures (r * c) * (r * c) + (r * s) * (r * s) == r * r
  {
    assert (r * c) * (r * c) + (r * s) * (r * s) == (r * r) * (c * c + s * s);
  }

  /** A single term traces the circle of radius |a_0|. */
  lemma SingleTermCircle(tr: Trig, prm: Params, theta: real)
    requires Laws(tr) && WellFormed(prm) && prm.n == 1
    ensures var p := PointAt(tr, prm, theta);
            p.x * p.x + p.y * p.y == prm.a[0] * prm.a[0]
  {
    var c, s := tr.cos(prm.b[0] * theta), tr.sin(prm.b[0] * theta);
    assert c * c + s * s == 1.0 by { assert s * s + c * c == 1.0; }
    CircleAlgebra(prm.a[0], c, s);
    var p := PointAt(tr, prm, theta);
    assert SumX(tr, prm.a, prm.b, 1, theta) == 0.0 + XTerm(tr, prm.a[0], prm.b[0], theta);
    assert SumY(tr, prm.a, prm.b, 1, theta) == 0.0 + YTerm(tr, prm.a[0], prm.b[0], theta);
    assert p.x == prm.a[0] * c;
    assert p.y == -(prm.a[0] * s);
    assert p.y * p.y == (prm.a[0] * s) * (prm.a[0] * s);
  }

  // ---------------------------------------------------------------- tables and export

  /** The tables; theta_max's are in radians and the slider divides them by pi. */
  const Bounds: Tables := Tables(
    map["n" := 1.0, "a" := 0.1, "b" := 1.0, "theta_max" := 0.1 * PI, "points" := 100.0],
    map["n" := 5.0, "a" := 2.0, "b" := 10.0, "theta_max" := 4.0 * PI, "points" := 10000.0],
    map["n" := 1.0, "a" := 0.1, "b" := 0.1, "theta_max" := 0.1, "points" := 100.0])

  /** The ranges: n in [1, 5] by 1, a in [0.1, 2] by 0.1, b in [1, 10] by 0.1,
      points in [100, 10000] by 100. */
  lemma TableValues()
    ensures MinOf(Bounds, "n") == 1.0 && MaxOf(Bounds, "n") == 5.0 && StepOf(Bounds, "n") == 1.0
    ensures MinOf(Bounds, "a") == 0.1 && MaxOf(Bounds, "a") == 2.0 && StepOf(Bounds, "a") == 0.1
    ensures MinOf(Bounds, "b") == 1.0 && MaxOf(Bounds, "b") == 10.0 && StepOf(Bounds, "b") == 0.1
    ensures MinOf(Bounds, "points") == 100.0 && MaxOf(Bounds, "points") == 10000.0
    ensures StepOf(Bounds, "points") == 100.0
  {
  }

  /** The theta_max slider runs over [0.1, 4] in units of pi, and its step is
      0.1 / pi: the step is divided by pi even though the table already
      gives it in those units. */
  lemma ThetaSlider()
    ensures MinOf(Bounds, "theta_max") / PI == 0.1
    ensures MaxOf(Bounds, "theta_max") / PI == 4.0
    ensures StepOf(Bounds, "theta_max") / PI == 0.1 / PI
    ensures 0.1 <= Defaults.theta_max / PI <= 4.0
  {
  }

  /** The defaults are well formed. */
  lemma DefaultsWellFormed()
    ensures WellFormed(Defaults)
    ensures forall j :: 0 <= j < Defaults.n ==>
              MinOf(Bounds, "a") <= Defaults.a[j] <= MaxOf(Bounds, "a")
              && MinOf(Bounds, "b") <= Defaults.b[j] <= MaxOf(Bounds, "b")
  {
  }

  /** `Exponential_n{n}_theta{theta_max / pi to one decimal}pi_pts{points}.svg`, dots made `p`. */
  function ExportName(prm: Params, render: real -> string, fixed1: real -> string): (name: string)
    ensures '.' !in name
    ensures |name| > 4 && name[|name| - 4..] == "psvg"
  {
    var stem := "Exponential_n" + render(prm.n as real) + "_theta" + fixed1(prm.theta_max / PI)
                + "pi_pts" + render(prm.points);
    SvgNameTail(stem);
    FileName(stem, "svg")
  }

  /** `handleExportSVG`: the curve through `saveSvg2D`. */
  function ExportSvg(tr: Trig, prm: Params, render: real -> string, fixed1: real -> string)
    : (d: (string, Export.Option<string>))
    requires WellFormed(prm) && IsCount(prm.points)
    ensures d.0 == ExportName(prm, render, fixed1)
    ensures '.' !in d.0
    ensures d.1.Some? <==> Export.NonDegenerate(BoundingBox(Curve(tr, prm)))
    ensures d.1.Some? ==> d.1.value == Export.Svg2DContent(Curve(tr, prm), 800.0, 800.0, render)
  {
    (ExportName(prm, render, fixed1), Export.Svg2DFile(Curve(tr, prm), render))
  }
}
