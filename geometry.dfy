/** CoreGraphics points, sizes and rectangles over `real`.
    A rect is its origin and its size; sizes are taken non-negative, as every
    rect in the engine is a measured frame or one built from positive widths, so
    `minX` is the origin and `maxX` the origin plus the width. */
module Geometry {

  datatype Point = Point(x: real, y: real)

  /** `CGSize`, also used for translations (`DragGesture.Value.translation`). */
  datatype Size = Size(width: real, height: real)

  datatype Rect = Rect(origin: Point, size: Size)

  const ZeroPoint := Point(0.0, 0.0)
  const ZeroSize := Size(0.0, 0.0)

  function MinX(r: Rect): real { r.origin.x }
  function MaxX(r: Rect): real { r.origin.x + r.size.width }
  function MinY(r: Rect): real { r.origin.y }
  function MaxY(r: Rect): real { r.origin.y + r.size.height }
  function MidX(r: Rect): real { r.origin.x + r.size.width / 2.0 }
  function MidY(r: Rect): real { r.origin.y + r.size.height / 2.0 }

  /** The centre of a rect, as the gestures compute `CGPoint(x: frame.midX, y: frame.midY)`. */
  function Mid(r: Rect): Point { Point(MidX(r), MidY(r)) }

  /** `CGRect.offsetBy(dx:dy:)`: the same size, the origin moved. */
  function OffsetBy(r: Rect, dx: real, dy: real): (o: Rect)
    ensures o.size == r.size
    ensures MinX(o) - MinX(r) == dx && MinY(o) - MinY(r) == dy
  {
    Rect(Point(r.origin.x + dx, r.origin.y + dy), r.size)
  }

  /** `CGRect.contains(_:)`: the left and top edges belong to the rect, the right
      and bottom edges do not. */
  predicate Contains(r: Rect, p: Point) {
    MinX(r) <= p.x < MaxX(r) && MinY(r) <= p.y < MaxY(r)
  }

  /** A rect holds its origin exactly when it has positive size, never a point on
      its right or bottom edge, and nothing at all when it is empty. */
  lemma ContainsIsHalfOpen(r: Rect, p: Point)
    ensures Contains(r, r.origin) <==> r.size.width > 0.0 && r.size.height > 0.0
    ensures !Contains(r, Point(MaxX(r), p.y)) && !Contains(r, Point(p.x, MaxY(r)))
    ensures r.size.width <= 0.0 || r.size.height <= 0.0 ==> !Contains(r, p)
  {
  }

  function Max(a: real, b: real): (m: real)
    ensures m >= a && m >= b && (m == a || m == b)
  {
    if a >= b then a else b
  }
}
