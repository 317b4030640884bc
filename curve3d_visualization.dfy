/** The 3D renderer: which points it draws (the tab's own generator, or the
    built-in Lissajous formula), how it frames the camera on them once and
    resets the zoom limits on every update, and the flat position buffer of
    the segment geometry. The camera and orbit controls are objects the
    effects mutate; they are modelled by the `Scene` class. */
module Curve3DVisualization {
  import opened Trigonometry
  import opened Geometry
  import opened Sampler
  import Lissajous3D

  datatype Option<T> = None | Some(value: T)

  // ---------------------------------------------------------------- points

  /** The `points` memo: `getPoints()` when a tab supplies it, otherwise the
      built-in loop over the Lissajous 3D parameters. */
  function ScenePoints(tr: Trig, getPoints: Option<seq<Vec3>>, prm: Lissajous3D.Params): (r: seq<Vec3>)
    requires IsCount(prm.points)
    ensures getPoints.Some? ==> r == getPoints.value
    ensures getPoints.None? ==> |r| == Steps(prm.points) + 1
    ensures getPoints.None? ==> forall i :: 0 <= i < |r| ==>
              r[i] == Lissajous3D.PointAt(tr, prm, (i as real / prm.points) * prm.longueur * PI)
  {
    match getPoints
    case Some(pts) => pts
    case None =>
      var r := Lissajous3D.Curve(tr, prm);
      SampledShape(Steps(prm.points), Lissajous3D.Sweep(prm), t => Lissajous3D.PointAt(tr, prm, t));
      assert forall i :: 0 <= i < |r| ==>
               At(i, Steps(prm.points), Lissajous3D.Sweep(prm)) == (i as real / prm.points) * prm.longueur * PI;
      r
  }

  /** The Lissajous tab passes its own generator, which computes what the
      built-in loop computes: the scene shows the same curve either way. */
  lemma SameCurveEitherWay(tr: Trig, prm: Lissajous3D.Params)
    requires IsCount(prm.points)
    ensures ScenePoints(tr, Some(Lissajous3D.Curve(tr, prm)), prm) == ScenePoints(tr, None, prm)
  {
  }

  // ---------------------------------------------------------------- segments

  /** The six numbers of segment i: its start point, then its end point. */
  function SegmentNumbers(p: Vec3, q: Vec3): seq<real>
  {
    [p.x, p.y, p.z, q.x, q.y, q.z]
  }

  /** The positions of the first k segments, in order. */
  function Segments(points: seq<Vec3>, k: nat): (r: seq<real>)
    requires k < |points|
    ensures |r| == 6 * k
  {
    if k == 0 then [] else Segments(points, k - 1) + SegmentNumbers(points[k - 1], points[k])
  }

  /** `curveGeometry`: no geometry below two points; otherwise the loop that
      pushes start and end of each segment. No element of the scene uses it:
      the drawn `line` takes the geometry made from the point list. */
  method SegmentPositions(points: seq<Vec3>) returns (r: Option<seq<real>>)
    ensures r.None? <==> |points| < 2
    ensures r.Some? ==> r.value == Segments(points, |points| - 1)
  {
    if |points| < 2 {
      return None;
    }
    var positions: seq<real> := [];
    var i := 0;
    while i < |points| - 1
      invariant 0 <= i <= |points| - 1
      invariant positions == Segments(points, i)
    {
      var start, end := points[i], points[i + 1];
      positions := positions + [start.x, start.y, start.z];
      positions := positions + [end.x, end.y, end.z];
      i := i + 1;
    }
    return Some(positions);
  }

  /** Coordinate c of segment i in the buffer: the start point's x, y, z,
      then the end point's. */
  lemma {:induction false} SegmentEntry(points: seq<Vec3>, k: nat, i: nat, c: nat)
    requires k < |points| && i < k && c < 6
    ensures Segments(points, k)[6 * i + c] == SegmentNumbers(points[i], points[i + 1])[c]
  {
    var prev := Segments(points, k - 1);
    assert Segments(points, k) == prev + SegmentNumbers(points[k - 1], points[k]);
    if i < k - 1 {
      SegmentEntry(points, k - 1, i, c);
    }
  }

  /** Each inner point is written twice in the buffer, as the end of one
      segment and the start of the next. The buffer is computed but never
      rendered: the drawn line is built from the point list itself. */
  lemma InnerPointsTwice(points: seq<Vec3>, i: nat)
    requires 0 < i < |points| - 1
    ensures var r := Segments(points, |points| - 1);
            && r[6 * i - 3] == points[i].x && r[6 * i - 2] == points[i].y && r[6 * i - 1] == points[i].z
            && r[6 * i] == points[i].x && r[6 * i + 1] == points[i].y && r[6 * i + 2] == points[i].z
  {
    var k := |points| - 1;
    var h := i - 1;
    var before, after := SegmentNumbers(points[h], points[i]), SegmentNumbers(points[i], points[i + 1]);
    SegmentEntry(points, k, h, 3);
    SegmentEntry(points, k, h, 4);
    SegmentEntry(points, k, h, 5);
    SegmentEntry(points, k, i, 0);
    SegmentEntry(points, k, i, 1);
    SegmentEntry(points, k, i, 2);
    assert 6 * h + 3 == 6 * i - 3;
    assert before[3] == points[i].x && before[4] == points[i].y && before[5] == points[i].z;
    assert after[0] == points[i].x && after[1] == points[i].y && after[2] == points[i].z;
  }

  // ---------------------------------------------------------------- camera

  /** Tailwind's md breakpoint: narrower windows are treated as mobile. */
  predicate IsMobile(windowWidth: real)
  {
    windowWidth < 768.0
  }

  /** `Math.max(size.x, size.y, size.z)`. */
  function MaxDimension(size: Vec3): (m: real)
    ensures m >= size.x && m >= size.y && m >= size.z
    ensures m == size.x || m == size.y || m == size.z
  {
    Max(Max(size.x, size.y), size.z)
  }

  /** How far along each axis the camera starts from the centre. */
  function Distance(mobile: bool, maxDimension: real): real
  {
    if mobile then maxDimension * 2.0 else maxDimension * 1.5
  }

  function Shift(c: Vec3, d: real): Vec3
  {
    Vec3(c.x + d, c.y + d, c.z + d)
  }

  /** The starting camera lies within the zoom limits: its squared distance
      to the target, 3 d^2, is between (0.5 m)^2 and (5 m)^2, on mobile
      (d = 2 m) and on desktop (d = 1.5 m). */
  lemma StartWithinZoom(mobile: bool, m: real)
    requires m >= 0.0
    ensures var d := Distance(mobile, m);
            (m * 0.5) * (m * 0.5) <= 3.0 * d * d <= (m * 5.0) * (m * 5.0)
  {
    var d := Distance(mobile, m);
    var mm := m * m;
    assert (m * 0.5) * (m * 0.5) == 0.25 * mm;
    assert (m * 5.0) * (m * 5.0) == 25.0 * mm;
    if mobile {
      assert 3.0 * d * d == 12.0 * mm;
    } else {
      assert 3.0 * d * d == 6.75 * mm;
    }
  }

  function DistanceSquared(p: Vec3, q: Vec3): real
  {
    (p.x - q.x) * (p.x - q.x) + (p.y - q.y) * (p.y - q.y) + (p.z - q.z) * (p.z - q.z)
  }

  lemma ShiftDistance(c: Vec3, d: real)
    ensures DistanceSquared(Shift(c, d), c) == 3.0 * d * d
  {
  }

  /** The camera state the effects read and write. */
  class Scene {
    var isMobile: bool
    var isInitialized: bool
    var target: Vec3
    var position: Vec3
    var minDistance: real
    var maxDistance: real

    /** The first render: the breakpoint read from the window, not yet framed.
        The zoom limits start at 0 here; the controls' own initial limits are
        not modelled, and the first `Fit` sets both. */
    constructor(windowWidth: real, target: Vec3, position: Vec3)
      ensures isMobile == IsMobile(windowWidth) && !isInitialized
      ensures this.target == target && this.position == position
      ensures minDistance == 0.0 && maxDistance == 0.0
    {
      isMobile := IsMobile(windowWidth);
      isInitialized := false;
      this.target := target;
      this.position := position;
      minDistance := 0.0;
      maxDistance := 0.0;
    }

    /** The resize listener re-reads the breakpoint. */
    method Resize(windowWidth: real)
      modifies this
      ensures isMobile == IsMobile(windowWidth)
      ensures isInitialized == old(isInitialized) && target == old(target) && position == old(position)
      ensures minDistance == old(minDistance) && maxDistance == old(maxDistance)
    {
      isMobile := IsMobile(windowWidth);
    }

    /** The effect on `params.curveType`: it clears the framed flag. No caller
        sets a curve type, so this runs once, at mount (see `Mount`). */
    method CurveTypeChanged()
      modifies this
      ensures !isInitialized
      ensures isMobile == old(isMobile) && target == old(target) && position == old(position)
      ensures minDistance == old(minDistance) && maxDistance == old(maxDistance)
    {
      isInitialized := false;
    }

    /** The framing effect. Without points or controls nothing happens.
        Otherwise, the first time only, the target moves to the box centre
        and the camera to centre + (d, d, d); every time, the zoom limits
        become half and five times the box's largest side. */
    method Fit(points: seq<Vec3>, controlsMounted: bool)
      modifies this
      ensures isMobile == old(isMobile)
      ensures |points| == 0 || !controlsMounted ==>
                isInitialized == old(isInitialized) && target == old(target) && position == old(position)
                && minDistance == old(minDistance) && maxDistance == old(maxDistance)
      ensures |points| > 0 && controlsMounted ==>
                var b := BoxOf(points);
                var m := MaxDimension(Size(b));
                && isInitialized
                && (old(isInitialized) ==> target == old(target) && position == old(position))
                && (!old(isInitialized) ==> target == Center(b) && position == Shift(Center(b), Distance(old(isMobile), m)))
                && minDistance == m * 0.5 && maxDistance == m * 5.0
    {
      if |points| == 0 || !controlsMounted {
        return;
      }
      var b := BoxOf(points);
      var center := Center(b);
      var size := Size(b);
      var maxDimension := MaxDimension(size);
      if !isInitialized {
        target := center;
        var distance := if isMobile then maxDimension * 2.0 else maxDimension * 1.5;
        position := Vec3(center.x + distance, center.y + distance, center.z + distance);
        isInitialized := true;
      }
      minDistance := maxDimension * 0.5;
      maxDistance := maxDimension * 5.0;
    }

    /** The mount commit: the framing effect, then the curve-type effect, in
        declaration order. Both set the framed flag; the later reset wins, so
        the camera is framed but the flag is down again. */
    method Mount(points: seq<Vec3>, controlsMounted: bool)
      requires !isInitialized
      modifies this
      ensures !isInitialized && isMobile == old(isMobile)
      ensures |points| == 0 || !controlsMounted ==>
                target == old(target) && position == old(position)
                && minDistance == old(minDistance) && maxDistance == old(maxDistance)
      ensures |points| > 0 && controlsMounted ==>
                var b := BoxOf(points);
                var m := MaxDimension(Size(b));
                && target == Center(b) && position == Shift(Center(b), Distance(isMobile, m))
                && minDistance == m * 0.5 && maxDistance == m * 5.0
    {
      Fit(points, controlsMounted);
      CurveTypeChanged();
    }

    /** Mount, then the next update with new points: the camera is framed a
        second time, on the new points' box, and only then stays put. */
    method MountThenUpdate(first: seq<Vec3>, next: seq<Vec3>)
      requires !isInitialized && |next| > 0
      modifies this
      ensures isInitialized && isMobile == old(isMobile)
      ensures var b := BoxOf(next);
              var m := MaxDimension(Size(b));
              && target == Center(b) && position == Shift(Center(b), Distance(isMobile, m))
              && minDistance == m * 0.5 && maxDistance == m * 5.0
    {
      Mount(first, true);
      Fit(next, true);
    }
  }

  /** After a first framing the camera looks at the centre of the points'
      box from within the zoom limits. */
  lemma FramedView(b: Box3, mobile: bool)
    requires b.min.x <= b.max.x && b.min.y <= b.max.y && b.min.z <= b.max.z
    ensures MaxDimension(Size(b)) >= 0.0
    ensures var m := MaxDimension(Size(b));
            (m * 0.5) * (m * 0.5) <= DistanceSquared(Shift(Center(b), Distance(mobile, m)), Center(b))
            <= (m * 5.0) * (m * 5.0)
  {
    var m := MaxDimension(Size(b));
    StartWithinZoom(mobile, m);
    ShiftDistance(Center(b), Distance(mobile, m));
  }

  /** The box of a non-empty list qualifies. */
  lemma BoxOrdered(points: seq<Vec3>)
    requires |points| > 0
    ensures var b := BoxOf(points);
            b.min.x <= b.max.x && b.min.y <= b.max.y && b.min.z <= b.max.z
  {
    assert InBox3(BoxOf(points), points[0]);
  }
}
