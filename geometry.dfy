/** Integer rectangles and the three rectangle tests the game relies on:
    closed containment of one rectangle in another, half-open point hit
    and half-open overlap of two rectangles. */
module Geometry {

  /** An axis-aligned rectangle given by its top-left corner and its size.
      The y axis points down, so `top` is the smaller y coordinate. */
  datatype Rect = Rect(left: int, top: int, width: int, height: int)
  {
    function Right(): int { left + width }

    function Bottom(): int { top + height }

    /** The same rectangle displaced by (dx, dy). */
    function Move(dx: int, dy: int): (r: Rect)
      ensures r.width == width && r.height == height
      ensures r.left - left == dx && r.top - top == dy
      ensures r.Right() - Right() == dx && r.Bottom() - Bottom() == dy
    {
      Rect(left + dx, top + dy, width, height)
    }

    /** `inner` lies within this rectangle; all four edges may touch. The
        game only tests rectangles of positive width and height, for which
        this is exactly the library's containment test. */
    predicate Contains(inner: Rect): (b: bool)
      // a contained rectangle is no larger than this one
      ensures b ==> inner.width <= width && inner.height <= height
    {
      left <= inner.left && top <= inner.top &&
      inner.Right() <= Right() && inner.Bottom() <= Bottom()
    }

    /** The point (px, py) lies within this rectangle; the right and bottom
        edges are not part of it. */
    predicate CollidePoint(px: int, py: int): (b: bool)
      // only a non-empty rectangle has points
      ensures b ==> 0 < width && 0 < height
      // a point hits exactly when its unit pixel lies within the rectangle
      ensures b <==> Contains(Rect(px, py, 1, 1))
    {
      left <= px < Right() && top <= py < Bottom()
    }

    /** The two rectangles share at least one interior point. The game only
        tests rectangles of positive width and height, for which this is
        the library's overlap test. */
    predicate CollideRect(other: Rect): (b: bool)
      // two non-empty rectangles overlap exactly when the top-left corner of
      // their intersection is a point of both
      ensures 0 < width && 0 < height && 0 < other.width && 0 < other.height ==>
        var mx := if left < other.left then other.left else left;
        var my := if top < other.top then other.top else top;
        (b <==> CollidePoint(mx, my) && other.CollidePoint(mx, my))
    {
      left < other.Right() && other.left < Right() &&
      top < other.Bottom() && other.top < Bottom()
    }
  }
}
