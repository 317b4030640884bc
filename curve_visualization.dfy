/** The 2D renderer: on every new point list it clears its 800 x 800 canvas,
    finds the bounding box, scales the curve uniformly to fit inside a
    20-pixel margin, centres it, and strokes it as one polyline. The canvas
    context is an object the drawing mutates; it is modelled as the list of
    calls it has received. */
module CurveVisualization {
  import opened Geometry
  import Trigonometry

  /** The canvas element's size attributes. */
  const Width: real := 800.0
  const Height: real := 800.0
  const Margin: real := 20.0

  /** The context calls the renderer makes. */
  datatype Call =
    | ClearRect(x: real, y: real, w: real, h: real)
    | BeginPath
    | StrokeStyle(color: string)
    | LineWidth(w: real)
    | MoveTo(x: real, y: real)
    | LineTo(x: real, y: real)
    | Stroke

  /** A 2D drawing context, reduced to the calls made on it so far. */
  class Context {
    var calls: seq<Call>

    constructor()
      ensures calls == []
    {
      calls := [];
    }

    method Perform(c: Call)
      modifies this
      ensures calls == old(calls) + [c]
    {
      calls := calls + [c];
    }
  }

  /** How much of the list the scan has taken in: the first point is its
      starting value, so visiting it changes nothing. */
  function Max1(i: nat): nat
  {
    if i == 0 then 1 else i
  }

  /** The `forEach` that grows minX, maxX, minY, maxY from the first point;
      it computes the bounding box of the list. */
  method ScanBounds(points: seq<Point2>) returns (b: Box2)
    requires |points| > 0
    ensures b == BoundingBox(points)
    ensures forall i :: 0 <= i < |points| ==> InBox2(b, points[i])
  {
    b := Box2(points[0].x, points[0].x, points[0].y, points[0].y);
    assert b == BoundingBox(points[..1]);
    var i := 0;
    while i < |points|
      invariant 0 <= i <= |points|
      invariant b == BoundingBox(points[..Max1(i)])
    {
      var p := points[i];
      ScanStep(points, i);
      b := Box2(Min(b.minX, p.x), Max(b.maxX, p.x), Min(b.minY, p.y), Max(b.maxY, p.y));
      i := i + 1;
    }
    assert points[..|points|] == points;
  }

  /** Visiting point i grows the box of what the scan has seen by that point. */
  lemma ScanStep(points: seq<Point2>, i: nat)
    requires i < |points|
    ensures BoundingBox(points[..Max1(i + 1)]) == Grow(BoundingBox(points[..Max1(i)]), points[i])
  {
    if i > 0 {
      BoundingBoxSnoc(points, i);
    }
  }

  /** `extent || 1`: a zero extent (all points on one line) counts as 1. */
  function Extent(d: real): (e: real)
    ensures d != 0.0 ==> e == d
    ensures d == 0.0 ==> e == 1.0
  {
    if d != 0.0 then d else 1.0
  }

  /** The one scale used for both axes: the smaller of the two fits. */
  function Scale(b: Box2): (s: real)
    requires b.minX <= b.maxX && b.minY <= b.maxY
    ensures s > 0.0
    ensures s <= (Width - 2.0 * Margin) / Extent(b.maxX - b.minX)
    ensures s <= (Height - 2.0 * Margin) / Extent(b.maxY - b.minY)
    ensures s == (Width - 2.0 * Margin) / Extent(b.maxX - b.minX)
            || s == (Height - 2.0 * Margin) / Extent(b.maxY - b.minY)
  {
    Min((Width - 2.0 * Margin) / Extent(b.maxX - b.minX), (Height - 2.0 * Margin) / Extent(b.maxY - b.minY))
  }

  /** `centerX` and `centerY`: the offset that centres [lo, hi] on a side of `size`. */
  function Offset(size: real, s: real, lo: real, hi: real): real
  {
    (size - s * (hi + lo)) / 2.0
  }

  /** `centerX + scale * x`, `centerY + scale * y`. */
  function PlaceWith(s: real, centerX: real, centerY: real, p: Point2): Point2
  {
    Point2(centerX + s * p.x, centerY + s * p.y)
  }

  /** Where a curve point is drawn for the box `b`. */
  function Place(b: Box2, p: Point2): Point2
    requires b.minX <= b.maxX && b.minY <= b.maxY
  {
    var s := Scale(b);
    PlaceWith(s, Offset(Width, s, b.minX, b.maxX), Offset(Height, s, b.minY, b.maxY), p)
  }

  /** The box's centre is drawn at the canvas centre. */
  lemma CentreToCentre(b: Box2)
    requires b.minX <= b.maxX && b.minY <= b.maxY
    ensures Place(b, Point2((b.minX + b.maxX) / 2.0, (b.minY + b.maxY) / 2.0)) == Point2(Width / 2.0, Height / 2.0)
  {
    var s := Scale(b);
    CentredAxis(Width, s, b.minX, b.maxX);
    CentredAxis(Height, s, b.minY, b.maxY);
  }

  lemma CentredAxis(size: real, s: real, lo: real, hi: real)
    ensures Offset(size, s, lo, hi) + s * ((lo + hi) / 2.0) == size / 2.0
  {
    assert s * ((lo + hi) / 2.0) == (s * (hi + lo)) / 2.0;
  }

  /** One axis of the fit: a coordinate of [lo, hi] drawn with a scale no
      larger than room / extent lands within the margins. */
  lemma AxisInside(lo: real, hi: real, v: real, s: real, size: real)
    requires lo <= v <= hi && s > 0.0 && size >= 2.0 * Margin
    requires s * Extent(hi - lo) <= size - 2.0 * Margin
    ensures Margin <= Offset(size, s, lo, hi) + s * v <= size - Margin
  {
    var c := Offset(size, s, lo, hi) + s * v;
    assert c == size / 2.0 + s * (v - (lo + hi) / 2.0);
    if hi > lo {
      assert s * (hi - lo) <= size - 2.0 * Margin;
      assert s * (v - (lo + hi) / 2.0) <= s * ((hi - lo) / 2.0);
      assert s * ((lo + hi) / 2.0 - v) <= s * ((hi - lo) / 2.0);
    } else {
      assert v == lo;
    }
  }

  lemma ScaleFits(room: real, e: real, s: real)
    requires e > 0.0 && s > 0.0 && s <= room / e
    ensures s * e <= room
  {
    assert s * e <= (room / e) * e;
  }

  /** The chosen scale fits both extents into the canvas less its margins. */
  lemma ScaleFitsBoth(b: Box2)
    requires b.minX <= b.maxX && b.minY <= b.maxY
    ensures Scale(b) * Extent(b.maxX - b.minX) <= Width - 2.0 * Margin
    ensures Scale(b) * Extent(b.maxY - b.minY) <= Height - 2.0 * Margin
  {
    var s := Scale(b);
    ScaleFits(Width - 2.0 * Margin, Extent(b.maxX - b.minX), s);
    ScaleFits(Height - 2.0 * Margin, Extent(b.maxY - b.minY), s);
  }

  /** Any scale that fits both extents draws the box inside the margins. */
  lemma PlaceWithInside(b: Box2, s: real, p: Point2)
    requires InBox2(b, p) && s > 0.0
    requires s * Extent(b.maxX - b.minX) <= Width - 2.0 * Margin
    requires s * Extent(b.maxY - b.minY) <= Height - 2.0 * Margin
    ensures var q := PlaceWith(s, Offset(Width, s, b.minX, b.maxX), Offset(Height, s, b.minY, b.maxY), p);
            Margin <= q.x <= Width - Margin && Margin <= q.y <= Height - Margin
  {
    var cx, cy := Offset(Width, s, b.minX, b.maxX), Offset(Height, s, b.minY, b.maxY);
    AxisInside(b.minX, b.maxX, p.x, s, Width);
    AxisInside(b.minY, b.maxY, p.y, s, Height);
    assert PlaceWith(s, cx, cy, p) == Point2(cx + s * p.x, cy + s * p.y);
  }

  /** Every point of the box is drawn inside the canvas less its 20-pixel margin. */
  lemma PlacedInside(b: Box2, p: Point2)
    requires b.minX <= b.maxX && b.minY <= b.maxY && InBox2(b, p)
    ensures Margin <= Place(b, p).x <= Width - Margin
    ensures Margin <= Place(b, p).y <= Height - Margin
  {
    ScaleFitsBoth(b);
    PlaceWithInside(b, Scale(b), p);
  }

  /** With any positive scale, differences are scaled and order is kept on both axes. */
  lemma PlaceWithDifferences(s: real, cx: real, cy: real, p: Point2, q: Point2)
    requires s > 0.0
    ensures PlaceWith(s, cx, cy, q).x - PlaceWith(s, cx, cy, p).x == s * (q.x - p.x)
    ensures PlaceWith(s, cx, cy, q).y - PlaceWith(s, cx, cy, p).y == s * (q.y - p.y)
    ensures p.x < q.x ==> PlaceWith(s, cx, cy, p).x < PlaceWith(s, cx, cy, q).x
    ensures p.y < q.y ==> PlaceWith(s, cx, cy, p).y < PlaceWith(s, cx, cy, q).y
  {
    assert PlaceWith(s, cx, cy, p) == Point2(cx + s * p.x, cy + s * p.y);
    assert PlaceWith(s, cx, cy, q) == Point2(cx + s * q.x, cy + s * q.y);
    assert s * q.x - s * p.x == s * (q.x - p.x);
    assert s * q.y - s * p.y == s * (q.y - p.y);
    if p.y < q.y {
      Trigonometry.ScaleStrict(s, p.y, q.y);
    }
    if p.x < q.x {
      Trigonometry.ScaleStrict(s, p.x, q.x);
    }
  }

  /** The canvas y axis is not flipped: a larger y is drawn lower on the
      canvas, unlike the SVG export. Both axes use the same scale, so
      distances keep their ratio. */
  lemma NoFlipUniformScale(b: Box2, p: Point2, q: Point2)
    requires b.minX <= b.maxX && b.minY <= b.maxY
    ensures p.y < q.y ==> Place(b, p).y < Place(b, q).y
    ensures p.x < q.x ==> Place(b, p).x < Place(b, q).x
    ensures Place(b, q).x - Place(b, p).x == Scale(b) * (q.x - p.x)
    ensures Place(b, q).y - Place(b, p).y == Scale(b) * (q.y - p.y)
  {
    var s := Scale(b);
    PlaceWithDifferences(s, Offset(Width, s, b.minX, b.maxX), Offset(Height, s, b.minY, b.maxY), p, q);
  }

  /** The path calls for the placed points: move to the first, a line to each other. */
  function PathCalls(placed: seq<Point2>): (r: seq<Call>)
    ensures |r| == |placed|
    ensures forall i :: 0 <= i < |placed| ==>
              r[i] == (if i == 0 then MoveTo(placed[i].x, placed[i].y) else LineTo(placed[i].x, placed[i].y))
  {
    seq(|placed|, i requires 0 <= i < |placed| =>
      if i == 0 then MoveTo(placed[i].x, placed[i].y) else LineTo(placed[i].x, placed[i].y))
  }

  /** The points scaled by `s` and shifted by the offsets. */
  function Scaled(points: seq<Point2>, s: real, centerX: real, centerY: real): (r: seq<Point2>)
    ensures |r| == |points|
    ensures forall i :: 0 <= i < |points| ==> r[i] == PlaceWith(s, centerX, centerY, points[i])
  {
    seq(|points|, i requires 0 <= i < |points| => PlaceWith(s, centerX, centerY, points[i]))
  }

  /** The positions drawn for a non-empty list: each point placed with the list's box. */
  function Placed(points: seq<Point2>): (r: seq<Point2>)
    requires |points| > 0
    ensures |r| == |points|
    ensures forall i :: 0 <= i < |points| ==> r[i] == Place(BoundingBox(points), points[i])
  {
    var b := BoundingBox(points);
    var s := Scale(b);
    Scaled(points, s, Offset(Width, s, b.minX, b.maxX), Offset(Height, s, b.minY, b.maxY))
  }

  /** Everything one render asks of the context. */
  function Drawing(points: seq<Point2>): seq<Call>
  {
    [ClearRect(0.0, 0.0, Width, Height)]
    + if |points| == 0 then []
      else [BeginPath, StrokeStyle("#4f46e5"), LineWidth(2.0)] + PathCalls(Placed(points)) + [Stroke]
  }

  /** An empty list only clears; otherwise exactly one MoveTo, one LineTo per
      further point, every drawn position inside the margins, and one Stroke at the end. */
  lemma DrawingShape(points: seq<Point2>)
    ensures |points| == 0 ==> Drawing(points) == [ClearRect(0.0, 0.0, Width, Height)]
    ensures |points| > 0 ==> |Drawing(points)| == |points| + 5
    ensures |points| > 0 ==> Drawing(points)[4].MoveTo? && Drawing(points)[|points| + 4] == Stroke
    ensures forall i :: 5 <= i < |points| + 4 ==> Drawing(points)[i].LineTo?
    ensures forall i :: 4 <= i < |points| + 4 ==>
              var c := Drawing(points)[i];
              (c.MoveTo? || c.LineTo?) && Margin <= c.x <= Width - Margin && Margin <= c.y <= Height - Margin
  {
    if |points| > 0 {
      var b := BoundingBox(points);
      var placed := Placed(points);
      var path := PathCalls(placed);
      DrawingOf(points);
      forall i | 4 <= i < |points| + 4
        ensures var c := Drawing(points)[i];
                (c.MoveTo? || c.LineTo?) && Margin <= c.x <= Width - Margin && Margin <= c.y <= Height - Margin
      {
        assert Drawing(points)[i] == path[i - 4];
        assert InBox2(b, points[i - 4]);
        PlacedInside(b, points[i - 4]);
      }
    }
  }

  /** The `forEach` that moves to the first point and draws a line to each
      next one, at `centerX + scale * x`, `centerY + scale * y`. */
  method TracePath(ctx: Context, points: seq<Point2>, s: real, centerX: real, centerY: real)
    modifies ctx
    ensures ctx.calls == old(ctx.calls) + PathCalls(Scaled(points, s, centerX, centerY))
  {
    ghost var path := PathCalls(Scaled(points, s, centerX, centerY));
    var i := 0;
    while i < |points|
      invariant 0 <= i <= |points|
      invariant ctx.calls == old(ctx.calls) + path[..i]
    {
      var canvasX, canvasY := centerX + s * points[i].x, centerY + s * points[i].y;
      assert Point2(canvasX, canvasY) == PlaceWith(s, centerX, centerY, points[i]);
      if i == 0 {
        ctx.Perform(MoveTo(canvasX, canvasY));
      } else {
        ctx.Perform(LineTo(canvasX, canvasY));
      }
      assert path[..i + 1] == path[..i] + [path[i]];
      i := i + 1;
    }
    assert path[..|points|] == path;
  }

  /** The effect: clear, then (for a non-empty list) stroke the fitted polyline. */
  method Render(ctx: Context, points: seq<Point2>)
    modifies ctx
    ensures ctx.calls == old(ctx.calls) + Drawing(points)
  {
    ctx.Perform(ClearRect(0.0, 0.0, Width, Height));
    if |points| == 0 {
      return;
    }
    ghost var cleared := ctx.calls;
    StrokeCurve(ctx, points);
    DrawingOf(points);
    assert ctx.calls == cleared + ([BeginPath, StrokeStyle("#4f46e5"), LineWidth(2.0)]
                                   + PathCalls(Placed(points)) + [Stroke]);
  }

  /** The non-empty branch: box, scale and offsets, then the styled path. */
  method StrokeCurve(ctx: Context, points: seq<Point2>)
    requires |points| > 0
    modifies ctx
    ensures ctx.calls == old(ctx.calls) + [BeginPath, StrokeStyle("#4f46e5"), LineWidth(2.0)]
                         + PathCalls(Placed(points)) + [Stroke]
  {
    var b := ScanBounds(points);
    assert b.minX <= b.maxX && b.minY <= b.maxY by {
      assert InBox2(b, points[0]);
    }
    var s := Scale(b);
    var centerX := Offset(Width, s, b.minX, b.maxX);
    var centerY := Offset(Height, s, b.minY, b.maxY);
    ctx.Perform(BeginPath);
    ctx.Perform(StrokeStyle("#4f46e5"));
    ctx.Perform(LineWidth(2.0));
    assert ctx.calls == old(ctx.calls) + [BeginPath, StrokeStyle("#4f46e5"), LineWidth(2.0)];
    TracePath(ctx, points, s, centerX, centerY);
    assert Scaled(points, s, centerX, centerY) == Placed(points);
    ctx.Perform(Stroke);
  }

  lemma DrawingOf(points: seq<Point2>)
    requires |points| > 0
    ensures Drawing(points) == [ClearRect(0.0, 0.0, Width, Height)] + [BeginPath, StrokeStyle("#4f46e5"), LineWidth(2.0)]
                               + PathCalls(Placed(points)) + [Stroke]
  {
  }
}
