/** The 2D Lissajous tab: the point generator, the parameter handler and the
    longueur input in multiples of pi, the export file name, and how the tab
    drives the parameter sweep (its record, its animate toggles and button). */
module Lissajous2D {
  import opened Trigonometry
  import opened Geometry
  import opened Sampler
  import opened Controls
  import Export
  import Animation

  /** `Curve2DParams`. */
  datatype Params = Params(A: real, B: real, p: real, q: real, delta: real, longueur: real, points: real)

  datatype Key = AmplitudeX | AmplitudeY | FrequencyX | FrequencyY | Phase | Length | Count

  const AllKeys: seq<Key> := [AmplitudeX, AmplitudeY, FrequencyX, FrequencyY, Phase, Length, Count]

  function Name(k: Key): string
  {
    match k
    case AmplitudeX => "A"
    case AmplitudeY => "B"
    case FrequencyX => "p"
    case FrequencyY => "q"
    case Phase => "delta"
    case Length => "longueur"
    case Count => "points"
  }

  function Get(prm: Params, k: Key): real
  {
    match k
    case AmplitudeX => prm.A
    case AmplitudeY => prm.B
    case FrequencyX => prm.p
    case FrequencyY => prm.q
    case Phase => prm.delta
    case Length => prm.longueur
    case Count => prm.points
  }

  const Defaults: Params := Params(1.0, 1.0, 3.0, 2.0, 0.5, 2.0 * PI, 1000.0)

  /** `handleParamChange`: `{...prev, [paramName]: value}`. */
  function HandleParamChange(prm: Params, k: Key, value: real): (r: Params)
    ensures Get(r, k) == value
    ensures forall other :: other != k ==> Get(r, other) == Get(prm, other)
  {
    match k
    case AmplitudeX => prm.(A := value)
    case AmplitudeY => prm.(B := value)
    case FrequencyX => prm.(p := value)
    case FrequencyY => prm.(q := value)
    case Phase => prm.(delta := value)
    case Length => prm.(longueur := value)
    case Count => prm.(points := value)
  }

  /** What the slider shows: longueur in multiples of pi. */
  function Displayed(k: Key, stored: real): real
  {
    if k == Length then stored / PI else stored
  }

  /** What the number box shows: longueur divided by pi to one decimal
      (`toFixed(1)`, ties away from zero), anything else as stored. */
  function BoxShown(k: Key, stored: real): (r: real)
    ensures k != Length ==> r == stored
    ensures k == Length && Displayed(k, stored) >= 0.0 ==> Displayed(k, stored) - 0.05 < r <= Displayed(k, stored) + 0.05
    ensures k == Length && Displayed(k, stored) < 0.0 ==> Displayed(k, stored) - 0.05 <= r < Displayed(k, stored) + 0.05
    ensures k == Length ==> (r * 10.0).Floor as real == r * 10.0
  {
    if k == Length then Tenths(Displayed(k, stored)) else stored
  }

  /** What the inputs pass to the handler: longueur times pi, anything else as entered. */
  function FromInput(k: Key, entered: real): real
  {
    if k == Length then entered * PI else entered
  }

  /** Through the slider, entering a value and reading it back shows that
      value, and a stored value re-entered as shown is stored unchanged. */
  lemma InputRoundTrip(k: Key, entered: real, stored: real)
    ensures Displayed(k, FromInput(k, entered)) == entered
    ensures FromInput(k, Displayed(k, stored)) == stored
  {
  }

  /** Through the number box, a value with at most one decimal is shown back
      unchanged; any other value is shown rounded to the nearest tenth, a
      tie going away from zero. */
  lemma BoxRoundTrip(k: Key, entered: real)
    ensures k != Length ==> BoxShown(k, FromInput(k, entered)) == entered
    ensures (entered * 10.0).Floor as real == entered * 10.0 ==> BoxShown(k, FromInput(k, entered)) == entered
    ensures entered >= 0.0 ==> entered - 0.05 < BoxShown(k, FromInput(k, entered)) <= entered + 0.05
    ensures entered < 0.0 ==> entered - 0.05 <= BoxShown(k, FromInput(k, entered)) < entered + 0.05
  {
    InputRoundTrip(k, entered, 0.0);
    if k == Length && (entered * 10.0).Floor as real == entered * 10.0 {
      TenthsExact(entered);
    }
  }

  /** Typing 0.25 into the longueur box stores 0.25 pi, which the box then shows as 0.3. */
  lemma BoxRoundsUp()
    ensures BoxShown(Length, FromInput(Length, 0.25)) == 0.3
  {
    InputRoundTrip(Length, 0.25, 0.0);
    assert (0.25 * 10.0 + 0.5).Floor == 3;
  }

  /** Typing -0.25 into the longueur box shows -0.3 back: the tie goes away from zero. */
  lemma BoxRoundsAway()
    ensures BoxShown(Length, FromInput(Length, -0.25)) == -0.3
  {
    InputRoundTrip(Length, -0.25, 0.0);
    assert (0.25 * 10.0 + 0.5).Floor == 3;
  }

  /** Editing through an input stores value times pi for longueur and the
      value itself elsewhere, leaving the other fields alone. */
  lemma EditThroughInput(prm: Params, k: Key, entered: real)
    ensures Get(HandleParamChange(prm, k, FromInput(k, entered)), k) == (if k == Length then entered * PI else entered)
    ensures Displayed(k, Get(HandleParamChange(prm, k, FromInput(k, entered)), k)) == entered
    ensures forall other :: other != k ==>
              Get(HandleParamChange(prm, k, FromInput(k, entered)), other) == Get(prm, other)
  {
  }

  /** The inline slider bounds, in displayed units. */
  function SliderMin(k: Key): real { if k == Length then 0.1 else 0.0 }
  function SliderMax(k: Key): real { if k == Length then 4.0 else if k == Count then 10000.0 else 10.0 }
  function SliderStep(k: Key): real { if k == Count then 100.0 else 0.1 }

  /** The defaults sit inside the slider ranges once shown in displayed units. */
  lemma DefaultsInRange(k: Key)
    ensures SliderMin(k) <= Displayed(k, Get(Defaults, k)) <= SliderMax(k)
  {
    if k == Length {
      assert Displayed(k, Get(Defaults, k)) == 2.0;
    }
  }

  /** The figure at parameter t: (A sin(p t + delta pi), B sin(q t)). */
  function Figure(tr: Trig, A: real, B: real, p: real, q: real, delta: real, t: real): Point2
  {
    Point2(A * tr.sin(p * t + delta * PI), B * tr.sin(q * t))
  }

  function PointAt(tr: Trig, prm: Params, t: real): Point2
  {
    Figure(tr, prm.A, prm.B, prm.p, prm.q, prm.delta, t)
  }

  /** What `generatePoints` returns: t runs from 0 to longueur. */
  function Curve(tr: Trig, prm: Params): seq<Point2>
    requires IsCount(prm.points)
  {
    Sampled(Steps(prm.points), prm.longueur, t => PointAt(tr, prm, t))
  }

  /** `generatePoints`: N + 1 points, point i at t_i = (i / N) longueur. */
  method GeneratePoints(tr: Trig, prm: Params) returns (points: seq<Point2>)
    requires IsCount(prm.points)
    ensures |points| == Steps(prm.points) + 1
    ensures forall i :: 0 <= i < |points| ==> points[i] == PointAt(tr, prm, At(i, Steps(prm.points), prm.longueur))
    ensures points[0] == PointAt(tr, prm, 0.0) && points[|points| - 1] == PointAt(tr, prm, prm.longueur)
    ensures points == Curve(tr, prm)
  {
    points := Sample(Steps(prm.points), prm.longueur, t => PointAt(tr, prm, t));
    Endpoints(Steps(prm.points), prm.longueur);
  }

  /** The curve starts on the x axis, at A sin(delta pi). */
  lemma FirstPoint(tr: Trig, prm: Params)
    requires tr.sin(0.0) == 0.0 && IsCount(prm.points)
    ensures Curve(tr, prm)[0] == Point2(prm.A * tr.sin(prm.delta * PI), 0.0)
  {
    FirstSample(Steps(prm.points), prm.longueur, t => PointAt(tr, prm, t));
    var A, B, p, q, delta := prm.A, prm.B, prm.p, prm.q, prm.delta;
    assert p * 0.0 + delta * PI == delta * PI;
    assert q * 0.0 == 0.0;
    assert B * tr.sin(q * 0.0) == 0.0;
    assert Figure(tr, A, B, p, q, delta, 0.0) == Point2(A * tr.sin(delta * PI), 0.0);
  }

  /** The figure stays in the box [-|A|, |A|] x [-|B|, |B|]. */
  lemma FigureBounded(tr: Trig, A: real, B: real, p: real, q: real, delta: real, t: real)
    requires Laws(tr)
    ensures Abs(Figure(tr, A, B, p, q, delta, t).x) <= Abs(A)
    ensures Abs(Figure(tr, A, B, p, q, delta, t).y) <= Abs(B)
  {
    SinBounded(tr, p * t + delta * PI);
    SinBounded(tr, q * t);
    Damped(A, tr.sin(p * t + delta * PI));
    Damped(B, tr.sin(q * t));
  }

  /** Every point of the curve lies in the box [-|A|, |A|] x [-|B|, |B|]. */
  lemma CurveInBox(tr: Trig, prm: Params, i: nat)
    requires Laws(tr) && IsCount(prm.points) && i < |Curve(tr, prm)|
    ensures Abs(Curve(tr, prm)[i].x) <= Abs(prm.A) && Abs(Curve(tr, prm)[i].y) <= Abs(prm.B)
  {
    var t := At(i, Steps(prm.points), prm.longueur);
    assert Curve(tr, prm)[i] == PointAt(tr, prm, t);
    FigureBounded(tr, prm.A, prm.B, prm.p, prm.q, prm.delta, t);
  }

  /** With A = B = p = q = 1 and delta = 0 both coordinates are sin t: the
      figure is the diagonal segment x = y (not a circle). */
  lemma UnitFigureIsDiagonal(tr: Trig, longueur: real, points: real, i: nat)
    requires IsCount(points)
    requires i <= Steps(points)
    ensures var c := Curve(tr, Params(1.0, 1.0, 1.0, 1.0, 0.0, longueur, points));
            c[i].x == c[i].y
  {
    var prm := Params(1.0, 1.0, 1.0, 1.0, 0.0, longueur, points);
    var t := At(i, Steps(points), longueur);
    assert Curve(tr, prm)[i] == PointAt(tr, prm, t);
    assert 1.0 * t + 0.0 * PI == t && 1.0 * t == t;
    assert Figure(tr, 1.0, 1.0, 1.0, 1.0, 0.0, t) == Point2(1.0 * tr.sin(t), 1.0 * tr.sin(t));
  }

  /** The export name: every `.` made `p`, the suffix `.svg` included. */
  function ExportName(prm: Params, render: real -> string, fixed1: real -> string): (name: string)
    ensures '.' !in name
    ensures |name| > 4 && name[|name| - 4..] == "psvg"
  {
    var stem := "Lissajous2D_A" + render(prm.A) + "_B" + render(prm.B) + "_p" + render(prm.p)
                + "_q" + render(prm.q) + "_delta" + render(prm.delta)
                + "_L" + fixed1(prm.longueur / PI) + "pi_pts" + render(prm.points);
    SvgNameTail(stem);
    FileName(stem, "svg")
  }

  /** `handleExportSVG`: the curve through `saveSvg2D`. */
  function ExportSvg(tr: Trig, prm: Params, render: real -> string, fixed1: real -> string)
    : (d: (string, Export.Option<string>))
    requires IsCount(prm.points)
    ensures d.0 == ExportName(prm, render, fixed1)
    ensures '.' !in d.0
    ensures d.1.Some? <==> Export.NonDegenerate(BoundingBox(Curve(tr, prm)))
    ensures d.1.Some? ==> d.1.value == Export.Svg2DContent(Curve(tr, prm), 800.0, 800.0, render)
  {
    (ExportName(prm, render, fixed1), Export.Svg2DFile(Curve(tr, prm), render))
  }

  // ---------------------------------------------------------------- the sweep

  /** The record `useAnimation` receives. */
  function ToRecord(prm: Params): (m: Animation.Params)
    ensures forall k :: Name(k) in m && m[Name(k)] == Animation.Num(Get(prm, k))
  {
    map["A" := Animation.Num(prm.A), "B" := Animation.Num(prm.B), "p" := Animation.Num(prm.p),
        "q" := Animation.Num(prm.q), "delta" := Animation.Num(prm.delta),
        "longueur" := Animation.Num(prm.longueur), "points" := Animation.Num(prm.points)]
  }

  /** Every key but `points` has an animate toggle. */
  predicate HasToggle(k: Key)
  {
    k != Count
  }

  /** The play button is enabled exactly when something is selected. */
  predicate PlayEnabled(selected: seq<string>)
  {
    |selected| != 0
  }

  /** A press on the play button: a disabled button sends no click, an enabled
      one starts or stops the animation. */
  method PressPlay(anim: Animation.Animator)
    requires anim.Valid()
    modifies anim`isAnimating
    ensures anim.Valid()
    ensures PlayEnabled(anim.selected) ==> anim.isAnimating == !old(anim.isAnimating)
    ensures !PlayEnabled(anim.selected) ==> anim.isAnimating == old(anim.isAnimating)
  {
    if PlayEnabled(anim.selected) {
      anim.ToggleAnimation();
    }
  }

  /** A selection made with the tab's toggles. */
  predicate FromToggles(selected: seq<string>)
  {
    forall i :: 0 <= i < |selected| ==> exists k :: HasToggle(k) && Name(k) == selected[i]
  }

  /** A selection made with the toggles can always be stepped, and a tick
      never changes the point count, which has no toggle. */
  lemma TickKeepsPointCount(prm: Params, selected: seq<string>, delta: real)
    requires FromToggles(selected)
    ensures Animation.AllTickable(ToRecord(prm), selected)
    ensures "points" in Animation.TickFold(ToRecord(prm), selected, delta).params
    ensures Animation.TickFold(ToRecord(prm), selected, delta).params["points"] == Animation.Num(prm.points)
  {
    var m := ToRecord(prm);
    forall i | 0 <= i < |selected|
      ensures Animation.Tickable(m, selected[i]) && !Animation.Targets(m, selected[i], "points")
    {
      var k :| HasToggle(k) && Name(k) == selected[i];
      assert !Animation.IsIndexedKey(Name(k));
      assert Name(k) in m;
    }
    assert Name(Count) in m;
    Animation.TickFoldUntouched(m, selected, delta, "points");
  }
}
