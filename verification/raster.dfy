/**
 `drawFilledCircle`: the lattice points a filled circle is painted with.
 The draw calls themselves are not modelled; the result is the sequence of
 points passed to them, in the order the two loops emit them.
 */
module Raster {

  datatype Point = Point(x: int, y: int)

  /** In the (2r+1)-square around the centre and within distance r of it:
      the test the inner loop applies to each offset. */
  predicate InDisk(cx: int, cy: int, r: int, p: Point) {
    && -r <= p.x - cx <= r
    && -r <= p.y - cy <= r
    && (p.x - cx) * (p.x - cx) + (p.y - cy) * (p.y - cy) <= r * r
  }

  /** Row-major order: the outer loop runs over y, the inner over x. */
  predicate Earlier(p: Point, q: Point) {
    p.y < q.y || (p.y == q.y && p.x < q.x)
  }

  /** The points emitted for a circle of radius `r` centred at (cx, cy):
      exactly the lattice points of the disk, each once, in row-major
      order. */
  method FilledCirclePoints(cx: int, cy: int, r: int) returns (pts: seq<Point>)
    ensures forall p :: p in pts <==> InDisk(cx, cy, r, p)
    ensures forall a, b :: 0 <= a < b < |pts| ==> Earlier(pts[a], pts[b])
    ensures forall a, b :: 0 <= a < b < |pts| ==> pts[a] != pts[b]
    ensures r >= 0 ==> Point(cx, cy) in pts
  {
    pts := [];
    var y := -r;
    while y <= r
      invariant r >= 0 ==> -r <= y <= r + 1
      invariant r < 0 ==> y == -r
      invariant forall p :: p in pts <==> InDisk(cx, cy, r, p) && p.y - cy < y
      invariant forall a, b :: 0 <= a < b < |pts| ==> Earlier(pts[a], pts[b])
      invariant forall a :: 0 <= a < |pts| ==> pts[a].y - cy < y
    {
      var x := -r;
      while x <= r
        invariant -r <= x <= r + 1
        invariant forall p :: p in pts <==>
          InDisk(cx, cy, r, p) && (p.y - cy < y || (p.y - cy == y && p.x - cx < x))
        invariant forall a, b :: 0 <= a < b < |pts| ==> Earlier(pts[a], pts[b])
        invariant forall a :: 0 <= a < |pts| ==> Earlier(pts[a], Point(cx + x, cy + y))
      {
        if x * x + y * y <= r * r {
          pts := pts + [Point(cx + x, cy + y)];
        }
        x := x + 1;
      }
      y := y + 1;
    }
  }
}
