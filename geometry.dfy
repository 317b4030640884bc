/** Points as the curve code passes them around: `[x, y]` pairs for the 2D
    families and `THREE.Vector3` triples for the 3D ones, with the bounding
    boxes that both renderers and the SVG exporter compute. */
module Geometry {

  datatype Point2 = Point2(x: real, y: real)

  datatype Vec3 = Vec3(x: real, y: real, z: real)

  function Min(a: real, b: real): real { if a <= b then a else b }

  function Max(a: real, b: real): real { if a >= b then a else b }

  /** Smallest and largest coordinates of a 2D point list. */
  datatype Box2 = Box2(minX: real, maxX: real, minY: real, maxY: real)

  predicate InBox2(b: Box2, p: Point2)
  {
    b.minX <= p.x <= b.maxX && b.minY <= p.y <= b.maxY
  }

  /** The box `Math.min(...xs)`, `Math.max(...xs)` (and the same for y) of a
      non-empty point list: it holds every point. */
  function BoundingBox(points: seq<Point2>): (b: Box2)
    requires |points| > 0
    ensures forall i :: 0 <= i < |points| ==> InBox2(b, points[i])
  {
    if |points| == 1 then
      Box2(points[0].x, points[0].x, points[0].y, points[0].y)
    else
      Grow(BoundingBox(points[..|points| - 1]), points[|points| - 1])
  }

  /** Each of the four sides of the box is reached by some point: the box
      is the smallest one holding the list. */
  lemma {:induction false} BoundingBoxAttained(points: seq<Point2>)
    requires |points| > 0
    ensures var b := BoundingBox(points);
            && (exists i :: 0 <= i < |points| && points[i].x == b.minX)
            && (exists i :: 0 <= i < |points| && points[i].x == b.maxX)
            && (exists i :: 0 <= i < |points| && points[i].y == b.minY)
            && (exists i :: 0 <= i < |points| && points[i].y == b.maxY)
  {
    var last := |points| - 1;
    if last == 0 {
      assert points[0].x == BoundingBox(points).minX && points[0].y == BoundingBox(points).minY;
      assert points[0].x == BoundingBox(points).maxX && points[0].y == BoundingBox(points).maxY;
    } else {
      var init := points[..last];
      var b, p := BoundingBox(init), points[last];
      var r := BoundingBox(points);
      assert r == Grow(b, p);
      BoundingBoxAttained(init);
      var i1 :| 0 <= i1 < last && init[i1].x == b.minX;
      var i2 :| 0 <= i2 < last && init[i2].x == b.maxX;
      var i3 :| 0 <= i3 < last && init[i3].y == b.minY;
      var i4 :| 0 <= i4 < last && init[i4].y == b.maxY;
      assert points[if b.minX <= p.x then i1 else last].x == r.minX;
      assert points[if b.maxX >= p.x then i2 else last].x == r.maxX;
      assert points[if b.minY <= p.y then i3 else last].y == r.minY;
      assert points[if b.maxY >= p.y then i4 else last].y == r.maxY;
    }
  }

  /** The box widened to take in one more point. */
  function Grow(b: Box2, p: Point2): Box2
  {
    Box2(Min(b.minX, p.x), Max(b.maxX, p.x), Min(b.minY, p.y), Max(b.maxY, p.y))
  }

  /** The box of a longer prefix is the box of the shorter one grown by the next point. */
  lemma BoundingBoxSnoc(points: seq<Point2>, i: nat)
    requires 0 < i < |points|
    ensures BoundingBox(points[..i + 1]) == Grow(BoundingBox(points[..i]), points[i])
  {
    assert points[..i + 1][..i] == points[..i];
  }

  /** `THREE.Box3`: componentwise minimum and maximum corner. */
  datatype Box3 = Box3(min: Vec3, max: Vec3)

  predicate InBox3(b: Box3, p: Vec3)
  {
    && b.min.x <= p.x <= b.max.x
    && b.min.y <= p.y <= b.max.y
    && b.min.z <= p.z <= b.max.z
  }

  /** `Box3.expandByPoint`. */
  function Expand(b: Box3, p: Vec3): Box3
  {
    Box3(Vec3(Min(b.min.x, p.x), Min(b.min.y, p.y), Min(b.min.z, p.z)),
         Vec3(Max(b.max.x, p.x), Max(b.max.y, p.y), Max(b.max.z, p.z)))
  }

  /** `Box3.setFromPoints` on a non-empty list, as a fold of `Expand`: the box
      holds every point. */
  function BoxOf(points: seq<Vec3>): (b: Box3)
    requires |points| > 0
    ensures forall i :: 0 <= i < |points| ==> InBox3(b, points[i])
  {
    if |points| == 1 then Box3(points[0], points[0])
    else Expand(BoxOf(points[..|points| - 1]), points[|points| - 1])
  }

  /** Each of the six faces of the box is reached by some point. */
  lemma {:induction false} BoxAttained(points: seq<Vec3>)
    requires |points| > 0
    ensures var b := BoxOf(points);
            && (exists i :: 0 <= i < |points| && points[i].x == b.min.x)
            && (exists i :: 0 <= i < |points| && points[i].y == b.min.y)
            && (exists i :: 0 <= i < |points| && points[i].z == b.min.z)
            && (exists i :: 0 <= i < |points| && points[i].x == b.max.x)
            && (exists i :: 0 <= i < |points| && points[i].y == b.max.y)
            && (exists i :: 0 <= i < |points| && points[i].z == b.max.z)
  {
    var last := |points| - 1;
    if last == 0 {
      assert BoxOf(points) == Box3(points[0], points[0]);
    } else {
      var init := points[..last];
      var b, p := BoxOf(init), points[last];
      var r := BoxOf(points);
      assert r == Expand(b, p);
      BoxAttained(init);
      var i1 :| 0 <= i1 < last && init[i1].x == b.min.x;
      var i2 :| 0 <= i2 < last && init[i2].y == b.min.y;
      var i3 :| 0 <= i3 < last && init[i3].z == b.min.z;
      var i4 :| 0 <= i4 < last && init[i4].x == b.max.x;
      var i5 :| 0 <= i5 < last && init[i5].y == b.max.y;
      var i6 :| 0 <= i6 < last && init[i6].z == b.max.z;
      assert points[if b.min.x <= p.x then i1 else last].x == r.min.x;
      assert points[if b.min.y <= p.y then i2 else last].y == r.min.y;
      assert points[if b.min.z <= p.z then i3 else last].z == r.min.z;
      assert points[if b.max.x >= p.x then i4 else last].x == r.max.x;
      assert points[if b.max.y >= p.y then i5 else last].y == r.max.y;
      assert points[if b.max.z >= p.z then i6 else last].z == r.max.z;
    }
  }

  /** `Box3.getSize`. */
  function Size(b: Box3): Vec3
  {
    Vec3(b.max.x - b.min.x, b.max.y - b.min.y, b.max.z - b.min.z)
  }

  /** `Box3.getCenter`. */
  function Center(b: Box3): Vec3
  {
    Vec3((b.min.x + b.max.x) * 0.5, (b.min.y + b.max.y) * 0.5, (b.min.z + b.max.z) * 0.5)
  }
}
