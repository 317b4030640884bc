/** The Clelia curve tab: the point generator, which winds around a sphere of
    radius a, the parameter handler (longueur stored times pi and swept as
    stored), the slider tables, and the two exports (PLY, raster SVG). */
module Clelie3D {
  import opened Trigonometry
  import opened Geometry
  import opened Sampler
  import opened Controls
  import Export

  /** `Clelie3DParams`. */
  datatype Params = Params(a: real, m: real, longueur: real, points: real)

  datatype Key = Radius | Loops | Length | Count

  function Name(k: Key): string
  {
    match k
    case Radius => "a"
    case Loops => "m"
    case Length => "longueur"
    case Count => "points"
  }

  function Get(prm: Params, k: Key): real
  {
    match k
    case Radius => prm.a
    case Loops => prm.m
    case Length => prm.longueur
    case Count => prm.points
  }

  const Defaults: Params := Params(1.0, 2.0, 2.0 * PI, 1000.0)

  /** `handleParamChange`: longueur is stored as value times pi, every other key as given. */
  function HandleParamChange(prm: Params, k: Key, value: real): (res: Params)
    ensures Get(res, k) == (if k == Length then value * PI else value)
    ensures forall other :: other != k ==> Get(res, other) == Get(prm, other)
  {
    match k
    case Radius => prm.(a := value)
    case Loops => prm.(m := value)
    case Length => prm.(longueur := value * PI)
    case Count => prm.(points := value)
  }

  /** What the slider shows: longueur divided by pi. */
  function Displayed(k: Key, stored: real): real
  {
    if k == Length then stored / PI else stored
  }

  /** What the number box shows: longueur divided by pi to one decimal
      (`toFixed(1)`, ties away from zero), anything else as stored. */
  function BoxShown(k: Key, stored: real): (r: real)
    ensures k != Length ==> r == stored
    ensures k == Length && Displayed(k, stored) >= 0.0 ==> Displayed(k, stored) - 0.05 < r <= Displayed(k, stored) + 0.05
    ensures k == Length && Displayed(k, stored) < 0.0 ==> Displayed(k, stored) - 0.05 <= r < Displayed(k, stored) + 0.05
    ensures k == Length ==> (r * 10.0).Floor as real == r * 10.0
  {
    if k == Length then Tenths(Displayed(k, stored)) else stored
  }

  /** The tables; the longueur slider, in displayed units, goes up to 2 pi. */
  const Bounds: Tables := Tables(
    map["a" := 0.1, "m" := 1.0, "longueur" := 0.1, "points" := 100.0],
    map["a" := 5.0, "m" := 20.0, "longueur" := 2.0 * PI, "points" := 10000.0],
    map["a" := 0.1, "m" := 1.0, "longueur" := 0.1, "points" := 100.0])

  predicate InRange(prm: Params)
  {
    forall k :: MinOf(Bounds, Name(k)) <= Displayed(k, Get(prm, k)) <= MaxOf(Bounds, Name(k))
  }

  /** The defaults show longueur as 2 and lie in range. Since the slider's
      maximum is 2 pi in units of pi, the swept angle can reach 2 pi squared. */
  lemma RangeFacts(prm: Params)
    ensures InRange(prm) ==> 0.1 <= prm.a <= 5.0 && 1.0 <= prm.m <= 20.0
    ensures InRange(prm) ==> 0.1 * PI <= prm.longueur <= 2.0 * PI * PI
    ensures Displayed(Length, Defaults.longueur) == 2.0
    ensures InRange(Defaults)
  {
    if InRange(prm) {
      KeyBounds(Radius);
      KeyBounds(Loops);
      KeyBounds(Length);
      assert MinOf(Bounds, Name(Radius)) <= Displayed(Radius, Get(prm, Radius)) <= MaxOf(Bounds, Name(Radius));
      assert MinOf(Bounds, Name(Loops)) <= Displayed(Loops, Get(prm, Loops)) <= MaxOf(Bounds, Name(Loops));
      assert MinOf(Bounds, Name(Length)) <= Displayed(Length, Get(prm, Length)) <= MaxOf(Bounds, Name(Length));
      var shown := prm.longueur / PI;
      assert prm.longueur == shown * PI;
    }
    DefaultsInRange();
  }

  /** The slider bounds of each key, in displayed units. */
  lemma KeyBounds(k: Key)
    ensures k == Radius ==> MinOf(Bounds, Name(k)) == 0.1 && MaxOf(Bounds, Name(k)) == 5.0
    ensures k == Loops ==> MinOf(Bounds, Name(k)) == 1.0 && MaxOf(Bounds, Name(k)) == 20.0
    ensures k == Length ==> MinOf(Bounds, Name(k)) == 0.1 && MaxOf(Bounds, Name(k)) == 2.0 * PI
    ensures k == Count ==> MinOf(Bounds, Name(k)) == 100.0 && MaxOf(Bounds, Name(k)) == 10000.0
  {
  }

  /** The defaults lie in range, longueur showing 2. */
  lemma DefaultsInRange()
    ensures Displayed(Length, Defaults.longueur) == 2.0
    ensures InRange(Defaults)
  {
    forall k ensures MinOf(Bounds, Name(k)) <= Displayed(k, Get(Defaults, k)) <= MaxOf(Bounds, Name(k)) {
      KeyBounds(k);
    }
  }

  /** The point at angle theta: (a cos(m theta) sin theta, a sin(m theta) sin theta, a cos theta). */
  function Clelia(tr: Trig, a: real, m: real, theta: real): Vec3
  {
    Vec3(a * tr.cos(m * theta) * tr.sin(theta),
         a * tr.sin(m * theta) * tr.sin(theta),
         a * tr.cos(theta))
  }

  function PointAt(tr: Trig, prm: Params, theta: real): Vec3
  {
    Clelia(tr, prm.a, prm.m, theta)
  }

  /** What `generatePoints` returns: theta runs from 0 to longueur. */
  function Curve(tr: Trig, prm: Params): seq<Vec3>
    requires IsCount(prm.points)
  {
    Sampled(Steps(prm.points), prm.longueur, theta => PointAt(tr, prm, theta))
  }

  /** `generatePoints`: N + 1 points, point i at theta_i = (i / N) longueur. */
  method GeneratePoints(tr: Trig, prm: Params) returns (points: seq<Vec3>)
    requires IsCount(prm.points)
    ensures |points| == Steps(prm.points) + 1
    ensures forall i :: 0 <= i < |points| ==>
              points[i] == PointAt(tr, prm, (i as real / prm.points) * prm.longueur)
    ensures points == Curve(tr, prm)
  {
    var n := Steps(prm.points);
    points := Sample(n, prm.longueur, theta => PointAt(tr, prm, theta));
    forall i | 0 <= i < |points|
      ensures points[i] == PointAt(tr, prm, (i as real / prm.points) * prm.longueur)
    {
      assert n as real == prm.points;
      assert At(i, n, prm.longueur) == (i as real / prm.points) * prm.longueur;
    }
  }

  /** The algebra behind the sphere: with c^2 + s^2 = 1 and u^2 + v^2 = 1,
      (a c u)^2 + (a s u)^2 + (a v)^2 = a^2. */
  lemma SquaresSum(a: real, c: real, s: real, u: real, v: real)
    requires c * c + s * s == 1.0 && u * u + v * v == 1.0
    ensures (a * c * u) * (a * c * u) + (a * s * u) * (a * s * u) + (a * v) * (a * v) == a * a
  {
    var au := a * u;
    assert (a * c * u) * (a * c * u) == (au * au) * (c * c);
    assert (a * s * u) * (a * s * u) == (au * au) * (s * s);
    assert (au * au) * (c * c) + (au * au) * (s * s) == (au * au) * (c * c + s * s);
    assert au * au == (a * a) * (u * u);
    assert (a * v) * (a * v) == (a * a) * (v * v);
    assert (a * a) * (u * u) + (a * a) * (v * v) == (a * a) * (u * u + v * v);
  }

  function NormSquared(p: Vec3): real
  {
    p.x * p.x + p.y * p.y + p.z * p.z
  }

  /** Every point of the Clelia curve lies on the sphere of radius |a|. */
  lemma OnSphere(tr: Trig, a: real, m: real, theta: real)
    requires Laws(tr)
    ensures NormSquared(Clelia(tr, a, m, theta)) == a * a
  {
    var c, s := tr.cos(m * theta), tr.sin(m * theta);
    var u, v := tr.sin(theta), tr.cos(theta);
    assert c * c + s * s == 1.0 by { assert s * s + c * c == 1.0; }
    assert u * u + v * v == 1.0;
    SquaresSum(a, c, s, u, v);
  }

  /** The whole sampled curve lies on that sphere. */
  lemma CurveOnSphere(tr: Trig, prm: Params, i: nat)
    requires Laws(tr) && IsCount(prm.points) && i < |Curve(tr, prm)|
    ensures NormSquared(Curve(tr, prm)[i]) == prm.a * prm.a
  {
    var theta := At(i, Steps(prm.points), prm.longueur);
    assert Curve(tr, prm)[i] == PointAt(tr, prm, theta);
    OnSphere(tr, prm.a, prm.m, theta);
  }

  /** The curve starts at the pole (0, 0, a). */
  lemma FirstPoint(tr: Trig, prm: Params)
    requires tr.sin(0.0) == 0.0 && tr.cos(0.0) == 1.0 && IsCount(prm.points)
    ensures Curve(tr, prm)[0] == Vec3(0.0, 0.0, prm.a)
  {
    FirstSample(Steps(prm.points), prm.longueur, theta => PointAt(tr, prm, theta));
    var a, m := prm.a, prm.m;
    assert m * 0.0 == 0.0;
    assert Clelia(tr, a, m, 0.0) == Vec3(a * tr.cos(0.0) * 0.0, a * tr.sin(0.0) * 0.0, a * 1.0);
  }

  // ---------------------------------------------------------------- exports

  /** The file name of either export. */
  function ExportName(prm: Params, ext: string, render: real -> string, fixed1: real -> string): (name: string)
    ensures '.' !in name
    ensures |name| > |ext| + 1 && name[|name| - |ext| - 1..] == "p" + Text.ReplaceDots(ext)
  {
    var stem := "Clelie3D_a" + render(prm.a) + "_m" + render(prm.m)
                + "_L" + fixed1(prm.longueur / PI) + "pi_pts" + render(prm.points);
    FileNameTail(stem, ext);
    FileName(stem, ext)
  }

  datatype Download = Download(name: string, content: string)

  /** `handleExportPLY`: the curve thinned to every `Stride`-th point, written
      as a closed PLY polyline; the list is never empty, so a file is always made. */
  function ExportPly(tr: Trig, prm: Params, render: real -> string, fixed1: real -> string): (d: Download)
    requires IsCount(prm.points)
    ensures d.name == ExportName(prm, "ply", render, fixed1)
    ensures Export.PlyContent(ReducedForPly(Curve(tr, prm)), render) == Export.Some(d.content)
  {
    Download(ExportName(prm, "ply", render, fixed1),
             Export.PlyContent(ReducedForPly(Curve(tr, prm)), render).value)
  }

  /** Every vertex the PLY file lists, the closing repeat included, lies on
      the sphere of radius |a|. */
  lemma PlyVerticesOnSphere(tr: Trig, prm: Params, j: nat)
    requires Laws(tr) && IsCount(prm.points)
    requires j <= |ReducedForPly(Curve(tr, prm))|
    ensures NormSquared(Export.Closed(ReducedForPly(Curve(tr, prm)))[j]) == prm.a * prm.a
  {
    var c := Curve(tr, prm);
    var reduced := ReducedForPly(c);
    SampledShape(Steps(prm.points), prm.longueur, theta => PointAt(tr, prm, theta));
    var k := if j < |reduced| then j else 0;
    assert Export.Closed(reduced)[j] == reduced[k];
    CurveOnSphere(tr, prm, k * Stride(|c|));
  }

  /** The document `handleExportSVG` writes: the rendered canvas image,
      as a data URL, embedded in an 800 x 800 SVG. */
  function RasterSvg(imageData: string): string
  {
    "<?xml version=\"1.0\" encoding=\"UTF-8\" standalone=\"no\"?>\n"
    + "        <svg xmlns=\"http://www.w3.org/2000/svg\" width=\"800\" height=\"800\">\n"
    + "          <image width=\"100%\" height=\"100%\" href=\"" + imageData + "\"/>\n"
    + "        </svg>"
  }

  /** `handleExportSVG`: nothing without a mounted visualisation; otherwise the
      captured image wrapped in an SVG document, found verbatim inside it. */
  function ExportSvg(prm: Params, captured: Export.Option<string>,
                     render: real -> string, fixed1: real -> string): (d: Export.Option<Download>)
    ensures d.None? <==> captured.None?
    ensures d.Some? ==> d.value.name == ExportName(prm, "svg", render, fixed1)
    ensures d.Some? ==> exists i, j :: 0 <= i <= j <= |d.value.content| && d.value.content[i..j] == captured.value
  {
    match captured
    case None => Export.None
    case Some(image) =>
      var content := RasterSvg(image);
      var prefix := "<?xml version=\"1.0\" encoding=\"UTF-8\" standalone=\"no\"?>\n"
                    + "        <svg xmlns=\"http://www.w3.org/2000/svg\" width=\"800\" height=\"800\">\n"
                    + "          <image width=\"100%\" height=\"100%\" href=\"";
      assert content == prefix + image + "\"/>\n" + "        </svg>";
      assert content[|prefix|..|prefix| + |image|] == image;
      Export.Some(Download(ExportName(prm, "svg", render, fixed1), content))
  }
}
