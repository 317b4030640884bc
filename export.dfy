/** What the exporters write: the ASCII PLY file of a closed 3D polyline,
    the SVG path of a 2D curve fitted to the page, and the SVG path of a 3D
    curve already projected to normalised device coordinates. How JavaScript
    prints a number is not modelled: `render` stands for `${x}`. */
module Export {
  import opened Text
  import opened Geometry
  import Trigonometry

  datatype Option<T> = None | Some(value: T)

  /** A printed number never holds a line break, a space or a comma. */
  ghost predicate PlainNumbers(render: real -> string)
  {
    forall x :: Free(render(x), '\n') && Free(render(x), ' ') && Free(render(x), ',')
  }

  // ---------------------------------------------------------------- PLY

  function PlyHeader(vertexCount: nat, edgeCount: nat): seq<string>
  {
    [ "ply",
      "format ascii 1.0",
      "element vertex " + NatToString(vertexCount),
      "property float x",
      "property float y",
      "property float z",
      "element edge " + NatToString(edgeCount),
      "property int vertex1",
      "property int vertex2",
      "end_header" ]
  }

  function VertexLine(p: Vec3, render: real -> string): string
  {
    render(p.x) + " " + render(p.y) + " " + render(p.z)
  }

  function EdgeLine(i: nat): string
  {
    NatToString(i) + " " + NatToString(i + 1)
  }

  /** The closed list: the points, then the first point again. */
  function Closed(points: seq<Vec3>): seq<Vec3>
    requires |points| > 0
  {
    points + [points[0]]
  }

  function VertexLines(all: seq<Vec3>, render: real -> string): seq<string>
  {
    seq(|all|, i requires 0 <= i < |all| => VertexLine(all[i], render))
  }

  function EdgeLines(numSegments: nat): seq<string>
  {
    seq(numSegments, i requires 0 <= i < numSegments => EdgeLine(i))
  }

  /** The text `savePly` builds; `None` for an empty list, where reading the
      first point's coordinates throws. */
  function PlyContent(points: seq<Vec3>, render: real -> string): (r: Option<string>)
    ensures r.None? <==> |points| == 0
  {
    if |points| == 0 then None
    else
      var all := Closed(points);
      var numSegments := |all| - 1;
      var header := Join(PlyHeader(|all|, numSegments), '\n');
      var vertices := Join(VertexLines(all, render), '\n');
      var edges := Join(EdgeLines(numSegments), '\n');
      Some(header + "\n" + vertices + "\n" + edges)
  }

  /** The file line by line: the ten header lines, K + 1 vertex lines (the
      first point repeated last), then K edge lines `i i+1`. */
  function PlyLines(points: seq<Vec3>, render: real -> string): seq<string>
    requires |points| > 0
  {
    PlyHeader(|points| + 1, |points|) + VertexLines(Closed(points), render) + EdgeLines(|points|)
  }

  /** The content is exactly the lines of `PlyLines` joined by newlines. */
  lemma PlyContentIsLines(points: seq<Vec3>, render: real -> string)
    requires |points| > 0
    ensures PlyContent(points, render) == Some(Join(PlyLines(points, render), '\n'))
  {
    var all := Closed(points);
    var h := PlyHeader(|all|, |all| - 1);
    var v := VertexLines(all, render);
    var e := EdgeLines(|all| - 1);
    JoinAppend(h, v, '\n');
    JoinAppend(h + v, e, '\n');
  }

  /** The layout of the lines: header, closed vertex list, edges. */
  lemma PlyLinesShape(points: seq<Vec3>, render: real -> string)
    requires |points| > 0
    ensures var lines := PlyLines(points, render);
            var k := |points|;
            && |lines| == 10 + (k + 1) + k
            && lines[..10] == PlyHeader(k + 1, k)
            && (forall i :: 0 <= i < k ==> lines[10 + i] == VertexLine(points[i], render))
            && lines[10 + k] == VertexLine(points[0], render)
            && (forall i :: 0 <= i < k ==> lines[11 + k + i] == EdgeLine(i))
  {
    var k := |points|;
    var lines := PlyLines(points, render);
    assert forall i :: 0 <= i < k ==> lines[10 + i] == VertexLines(Closed(points), render)[i];
    assert lines[10 + k] == VertexLines(Closed(points), render)[k];
  }

  /** No line of the file holds a line break when no printed number does. */
  lemma PlyLinesFree(points: seq<Vec3>, render: real -> string)
    requires |points| > 0
    requires PlainNumbers(render)
    ensures forall i :: 0 <= i < |PlyLines(points, render)| ==> Free(PlyLines(points, render)[i], '\n')
  {
    var lines := PlyLines(points, render);
    var k := |points|;
    forall i | 0 <= i < |lines| ensures Free(lines[i], '\n') {
      if i < 10 {
        assert lines[i] == PlyHeader(k + 1, k)[i];
        assert forall c :: c in NatToString(k + 1) ==> IsDigit(c);
        assert forall c :: c in NatToString(k) ==> IsDigit(c);
      } else if i < 11 + k {
        var p := Closed(points)[i - 10];
        assert lines[i] == VertexLine(p, render);
        assert Free(render(p.x), '\n') && Free(render(p.y), '\n') && Free(render(p.z), '\n');
      } else {
        var j := i - 11 - k;
        assert lines[i] == EdgeLine(j);
        assert forall c :: c in NatToString(j) ==> IsDigit(c);
        assert forall c :: c in NatToString(j + 1) ==> IsDigit(c);
      }
    }
  }

  /** Reading the file back line by line gives: `element vertex K+1`,
      `element edge K`, the vertex lines in input order with the first point
      again at position K, and edge i joining i to i + 1. */
  lemma PlyReadBack(points: seq<Vec3>, render: real -> string)
    requires |points| > 0
    requires PlainNumbers(render)
    ensures PlyContent(points, render).Some?
    ensures var lines := Split(PlyContent(points, render).value, '\n');
            var k := |points|;
            && |lines| == 10 + (k + 1) + k
            && lines[..10] == PlyHeader(k + 1, k)
            && lines[2] == "element vertex " + NatToString(k + 1)
            && lines[6] == "element edge " + NatToString(k)
            && (forall i :: 0 <= i < k ==> lines[10 + i] == VertexLine(points[i], render))
            && lines[10 + k] == VertexLine(points[0], render)
            && (forall i :: 0 <= i < k ==> lines[11 + k + i] == EdgeLine(i))
  {
    PlyContentIsLines(points, render);
    PlyLinesFree(points, render);
    SplitJoin(PlyLines(points, render), '\n');
    PlyLinesShape(points, render);
    var k := |points|;
    assert PlyLines(points, render)[2] == PlyHeader(k + 1, k)[2];
    assert PlyLines(points, render)[6] == PlyHeader(k + 1, k)[6];
  }

  /** An edge line reads back as the pair (i, i + 1): every index lies in [0, K]
      when i < K, and the last edge ends at the repeated vertex K, not at 0. */
  lemma EdgeReadBack(i: nat)
    ensures var parts := Split(EdgeLine(i), ' ');
            |parts| == 2 && AllDigits(parts[0]) && AllDigits(parts[1]) &&
            ParseNat(parts[0]) == i && ParseNat(parts[1]) == i + 1
  {
    var a, b := NatToString(i), NatToString(i + 1);
    assert Free(a, ' ') && Free(b, ' ') by {
      assert forall c :: c in a ==> IsDigit(c);
      assert forall c :: c in b ==> IsDigit(c);
    }
    assert EdgeLine(i) == Join([a, b], ' ');
    SplitJoin([a, b], ' ');
    ParseNatToString(i);
    ParseNatToString(i + 1);
  }

  // ---------------------------------------------------------------- SVG path data

  function Command(i: nat): string
  {
    if i == 0 then "M" else "L"
  }

  /** The `reduce` that builds the `d` attribute: for point i it appends
      ` M x,y` (i = 0) or ` L x,y`. */
  function PathData(points: seq<Point2>, render: real -> string): string
  {
    if |points| == 0 then ""
    else
      var i := |points| - 1;
      PathData(points[..i], render) + " " + Command(i) + " " + render(points[i].x) + "," + render(points[i].y)
  }

  /** The tokens between spaces of `PathData`: an empty first token, then a
      command letter and an `x,y` token per point. */
  function PathTokens(points: seq<Point2>, render: real -> string): (r: seq<string>)
    ensures |r| == 1 + 2 * |points|
  {
    if |points| == 0 then [""]
    else
      var i := |points| - 1;
      PathTokens(points[..i], render) + [Command(i), render(points[i].x) + "," + render(points[i].y)]
  }

  lemma {:induction false} PathDataIsTokens(points: seq<Point2>, render: real -> string)
    ensures PathData(points, render) == Join(PathTokens(points, render), ' ')
  {
    if |points| > 0 {
      var i := |points| - 1;
      PathDataIsTokens(points[..i], render);
      var t := PathTokens(points[..i], render);
      var last := [Command(i), render(points[i].x) + "," + render(points[i].y)];
      JoinAppend(t, last, ' ');
      assert Join(last, ' ') == Command(i) + " " + (render(points[i].x) + "," + render(points[i].y));
    }
  }

  /** One parsed command of a path: its letter and the two printed coordinates. */
  datatype PathCommand = PathCommand(op: string, x: string, y: string)

  function Coordinates(op: string, token: string): PathCommand
  {
    var parts := Split(token, ',');
    if |parts| == 2 then PathCommand(op, parts[0], parts[1]) else PathCommand(op, token, "")
  }

  function Pairs(tokens: seq<string>): seq<PathCommand>
  {
    if |tokens| < 2 then [] else [Coordinates(tokens[0], tokens[1])] + Pairs(tokens[2..])
  }

  /** Reads a `d` attribute back into its commands. */
  function ParsePath(d: string): seq<PathCommand>
  {
    Pairs(Split(d, ' ')[1..])
  }

  /** The commands a point list is written as: `M` for the first, `L` for every later one. */
  function Commands(points: seq<Point2>, render: real -> string): (r: seq<PathCommand>)
    ensures |r| == |points|
  {
    seq(|points|, i requires 0 <= i < |points| => PathCommand(Command(i), render(points[i].x), render(points[i].y)))
  }

  lemma {:induction false} PairsAppend(tokens: seq<string>, a: string, b: string)
    requires |tokens| % 2 == 0
    ensures Pairs(tokens + [a, b]) == Pairs(tokens) + [Coordinates(a, b)]
    decreases |tokens|
  {
    if |tokens| == 0 {
      assert ([] + [a, b])[2..] == [];
    } else {
      assert (tokens + [a, b])[2..] == tokens[2..] + [a, b];
      PairsAppend(tokens[2..], a, b);
    }
  }

  lemma {:induction false} PairsOfTokens(points: seq<Point2>, render: real -> string)
    requires PlainNumbers(render)
    ensures Pairs(PathTokens(points, render)[1..]) == Commands(points, render)
  {
    if |points| > 0 {
      var i := |points| - 1;
      var t := PathTokens(points[..i], render);
      PairsOfTokens(points[..i], render);
      var xs, ys := render(points[i].x), render(points[i].y);
      assert PathTokens(points, render)[1..] == t[1..] + [Command(i), xs + "," + ys];
      PairsAppend(t[1..], Command(i), xs + "," + ys);
      SplitJoin([xs, ys], ',');
      assert Join([xs, ys], ',') == xs + "," + ys;
      assert Commands(points, render) == Commands(points[..i], render) + [PathCommand(Command(i), xs, ys)];
    }
  }

  /** Round trip: parsing the path data gives one command per point, in point
      order, `M` first and `L` after, with that point's printed coordinates. */
  lemma ParsePathData(points: seq<Point2>, render: real -> string)
    requires PlainNumbers(render)
    ensures ParsePath(PathData(points, render)) == Commands(points, render)
  {
    var tokens := PathTokens(points, render);
    PathDataIsTokens(points, render);
    forall j | 0 <= j < |tokens| ensures Free(tokens[j], ' ') {
      PathTokenFree(points, render, j);
    }
    SplitJoin(tokens, ' ');
    PairsOfTokens(points, render);
  }

  lemma {:induction false} PathTokenFree(points: seq<Point2>, render: real -> string, j: nat)
    requires PlainNumbers(render)
    requires j < 1 + 2 * |points|
    ensures Free(PathTokens(points, render)[j], ' ')
  {
    if |points| > 0 {
      var i := |points| - 1;
      if j < 1 + 2 * i {
        PathTokenFree(points[..i], render, j);
      } else {
        var xs, ys := render(points[i].x), render(points[i].y);
        assert ' ' !in xs + "," + ys;
      }
    }
  }

  /** The SVG document both exporters write around the path data. */
  function SvgDocument(width: string, height: string, pathData: string): string
  {
    "<?xml version=\"1.0\" encoding=\"UTF-8\" standalone=\"no\"?>\n"
    + "<svg xmlns=\"http://www.w3.org/2000/svg\" width=\"" + width + "\" height=\"" + height
    + "\" viewBox=\"0 0 " + width + " " + height + "\">\n"
    + "  <path\n    d=\"" + pathData + "\"\n    fill=\"none\"\n    stroke=\"#4f46e5\"\n    stroke-width=\"2\"\n  />\n</svg>"
  }

  // ---------------------------------------------------------------- saveSvg2D

  const Margin: real := 50.0

  predicate NonDegenerate(b: Box2)
  {
    b.maxX > b.minX && b.maxY > b.minY
  }

  /** `Math.min(scaleX, scaleY)`: the page size less two margins over the box extent. */
  function FitScale(b: Box2, width: real, height: real): real
    requires NonDegenerate(b)
  {
    Min((width - 2.0 * Margin) / (b.maxX - b.minX), (height - 2.0 * Margin) / (b.maxY - b.minY))
  }

  /** The page position of a point: shifted to the margin and flipped vertically. */
  function FitPoint(b: Box2, scale: real, height: real, p: Point2): Point2
  {
    Point2((p.x - b.minX) * scale + Margin, height - ((p.y - b.minY) * scale + Margin))
  }

  /** The inverse map, from page position back to curve coordinates. */
  function UnfitPoint(b: Box2, scale: real, height: real, q: Point2): Point2
    requires scale != 0.0
  {
    Point2((q.x - Margin) / scale + b.minX, (height - q.y - Margin) / scale + b.minY)
  }

  /** The transform is invertible given the box corner and the scale. */
  lemma FitInvertible(b: Box2, scale: real, height: real, p: Point2, q: Point2)
    requires scale != 0.0
    ensures UnfitPoint(b, scale, height, FitPoint(b, scale, height, p)) == p
    ensures FitPoint(b, scale, height, UnfitPoint(b, scale, height, q)) == q
  {
    var f := FitPoint(b, scale, height, p);
    assert (f.x - Margin) / scale == p.x - b.minX;
    assert (height - f.y - Margin) / scale == p.y - b.minY;
    var u := UnfitPoint(b, scale, height, q);
    assert (u.x - b.minX) * scale == q.x - Margin;
    assert (u.y - b.minY) * scale == height - q.y - Margin;
  }

  lemma ScaledAtMost(d: real, extent: real, room: real, scale: real)
    requires 0.0 <= d <= extent && 0.0 <= scale && extent * scale <= room
    ensures 0.0 <= d * scale <= room
  {
    assert d * scale <= extent * scale;
  }

  lemma FitsRoom(extent: real, room: real, scale: real)
    requires extent > 0.0 && 0.0 <= scale <= room / extent
    ensures extent * scale <= room
  {
    assert extent * scale <= extent * (room / extent);
  }

  /** The fitting scale is non-negative and fits both extents. */
  lemma FitScaleBounds(b: Box2, width: real, height: real)
    requires NonDegenerate(b)
    requires width >= 2.0 * Margin && height >= 2.0 * Margin
    ensures 0.0 <= FitScale(b, width, height)
    ensures (b.maxX - b.minX) * FitScale(b, width, height) <= width - 2.0 * Margin
    ensures (b.maxY - b.minY) * FitScale(b, width, height) <= height - 2.0 * Margin
  {
    var rx, ry := width - 2.0 * Margin, height - 2.0 * Margin;
    var ex, ey := b.maxX - b.minX, b.maxY - b.minY;
    var s := FitScale(b, width, height);
    assert rx / ex >= 0.0;
    assert ry / ey >= 0.0;
    FitsRoom(ex, rx, s);
    FitsRoom(ey, ry, s);
  }

  /** With any non-negative scale that fits both extents, a point of the box
      lands inside the page less its margins. */
  lemma FitPointInside(b: Box2, s: real, width: real, height: real, p: Point2)
    requires InBox2(b, p) && 0.0 <= s
    requires (b.maxX - b.minX) * s <= width - 2.0 * Margin
    requires (b.maxY - b.minY) * s <= height - 2.0 * Margin
    ensures var q := FitPoint(b, s, height, p);
            Margin <= q.x <= width - Margin && Margin <= q.y <= height - Margin
  {
    ScaledAtMost(p.x - b.minX, b.maxX - b.minX, width - 2.0 * Margin, s);
    ScaledAtMost(p.y - b.minY, b.maxY - b.minY, height - 2.0 * Margin, s);
    var q := FitPoint(b, s, height, p);
    assert q.x == (p.x - b.minX) * s + Margin;
    assert q.y == height - ((p.y - b.minY) * s + Margin);
  }

  /** A point of the box lands inside the page less its margins. */
  lemma FitBoxPoint(b: Box2, width: real, height: real, p: Point2)
    requires NonDegenerate(b) && InBox2(b, p)
    requires width >= 2.0 * Margin && height >= 2.0 * Margin
    ensures var q := FitPoint(b, FitScale(b, width, height), height, p);
            Margin <= q.x <= width - Margin && Margin <= q.y <= height - Margin
  {
    FitScaleBounds(b, width, height);
    FitPointInside(b, FitScale(b, width, height), width, height, p);
  }

  /** With a non-degenerate box and a page of at least 100 x 100, every point
      lands inside the page less its 50-unit margins. */
  lemma FitInsidePage(points: seq<Point2>, width: real, height: real, k: nat)
    requires |points| > 0 && NonDegenerate(BoundingBox(points))
    requires width >= 2.0 * Margin && height >= 2.0 * Margin
    requires k < |points|
    ensures Margin <= Fitted(points, width, height)[k].x <= width - Margin
    ensures Margin <= Fitted(points, width, height)[k].y <= height - Margin
  {
    var b := BoundingBox(points);
    assert InBox2(b, points[k]);
    FitBoxPoint(b, width, height, points[k]);
    assert Fitted(points, width, height)[k] == FitPoint(b, FitScale(b, width, height), height, points[k]);
  }

  /** The page's y axis points down: a higher curve point lands higher up the page. */
  lemma FitFlipsY(b: Box2, scale: real, height: real, p: Point2, p': Point2)
    requires scale > 0.0 && p.y < p'.y
    ensures FitPoint(b, scale, height, p).y > FitPoint(b, scale, height, p').y
  {
    Trigonometry.ScaleStrict(scale, p.y - b.minY, p'.y - b.minY);
  }

  /** The points `saveSvg2D` writes. */
  function Fitted(points: seq<Point2>, width: real, height: real): (r: seq<Point2>)
    requires |points| > 0 && NonDegenerate(BoundingBox(points))
    ensures |r| == |points|
  {
    var b := BoundingBox(points);
    var s := FitScale(b, width, height);
    seq(|points|, i requires 0 <= i < |points| => FitPoint(b, s, height, points[i]))
  }

  /** The document `saveSvg2D` saves. An empty list gives an empty path; a box
      with no width or no height (a division by zero in the source) is excluded. */
  function Svg2DContent(points: seq<Point2>, width: real, height: real, render: real -> string): string
    requires |points| == 0 || NonDegenerate(BoundingBox(points))
  {
    var d := if |points| == 0 then "" else PathData(Fitted(points, width, height), render);
    SvgDocument(render(width), render(height), d)
  }

  /** `saveSvg2D(points, fileName)` on its default 800 x 800 page. `None` marks
      a box with no width or no height, where the source divides by zero. */
  function Svg2DFile(points: seq<Point2>, render: real -> string): (r: Option<string>)
    ensures r.Some? <==> |points| == 0 || NonDegenerate(BoundingBox(points))
    ensures r.Some? ==> r.value == Svg2DContent(points, 800.0, 800.0, render)
  {
    if |points| == 0 || NonDegenerate(BoundingBox(points)) then Some(Svg2DContent(points, 800.0, 800.0, render))
    else None
  }

  // ---------------------------------------------------------------- saveSvg3D

  /** Normalised device coordinates to pixels: x from [-1, 1] to [0, width],
      y from [-1, 1] to [height, 0]. */
  function NdcToPixel(p: Point2, width: real, height: real): Point2
  {
    Point2(((p.x + 1.0) * width) / 2.0, ((1.0 - p.y) * height) / 2.0)
  }

  function PixelToNdc(q: Point2, width: real, height: real): Point2
    requires width != 0.0 && height != 0.0
  {
    Point2(2.0 * q.x / width - 1.0, 1.0 - 2.0 * q.y / height)
  }

  lemma HalfScaled(a: real, size: real)
    requires 0.0 <= a <= 2.0 && size > 0.0
    ensures 0.0 <= (a * size) / 2.0 <= size
  {
    assert 0.0 <= a * size;
    assert a * size <= 2.0 * size;
  }

  lemma HalfScaledBack(a: real, size: real)
    requires size != 0.0
    ensures 2.0 * ((a * size) / 2.0) / size == a
  {
    assert 2.0 * ((a * size) / 2.0) == a * size;
    assert (a * size) / size == a;
  }

  /** The visible NDC square fills the page, y pointing down; the map is invertible. */
  lemma NdcMapping(p: Point2, width: real, height: real)
    requires width > 0.0 && height > 0.0
    ensures -1.0 <= p.x <= 1.0 ==> 0.0 <= NdcToPixel(p, width, height).x <= width
    ensures -1.0 <= p.y <= 1.0 ==> 0.0 <= NdcToPixel(p, width, height).y <= height
    ensures NdcToPixel(Point2(-1.0, 1.0), width, height) == Point2(0.0, 0.0)
    ensures NdcToPixel(Point2(1.0, -1.0), width, height) == Point2(width, height)
    ensures PixelToNdc(NdcToPixel(p, width, height), width, height) == p
  {
    var q := NdcToPixel(p, width, height);
    if -1.0 <= p.x <= 1.0 {
      var a := p.x + 1.0;
      HalfScaled(a, width);
      assert q.x == (a * width) / 2.0;
    }
    if -1.0 <= p.y <= 1.0 {
      var a := 1.0 - p.y;
      HalfScaled(a, height);
      assert q.y == (a * height) / 2.0;
    }
    HalfScaledBack(p.x + 1.0, width);
    HalfScaledBack(1.0 - p.y, height);
  }

  /** The pixel points `saveSvg3D` writes, from the points already projected to NDC. */
  function Projected(ndc: seq<Point2>, width: real, height: real): (r: seq<Point2>)
    ensures |r| == |ndc|
    ensures forall i :: 0 <= i < |ndc| ==> r[i] == NdcToPixel(ndc[i], width, height)
  {
    seq(|ndc|, i requires 0 <= i < |ndc| => NdcToPixel(ndc[i], width, height))
  }

  /** The document `saveSvg3D` saves. */
  function Svg3DContent(ndc: seq<Point2>, width: real, height: real, render: real -> string): string
  {
    SvgDocument(render(width), render(height), PathData(Projected(ndc, width, height), render))
  }
}
