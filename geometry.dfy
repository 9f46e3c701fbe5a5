/**
 * Integer plane geometry as Qt's QPoint and QRect define it.
 *
 * A QRect keeps its four edges. The right and bottom edges are inclusive, so the
 * rectangle built from (x, y, w, h) has right == x + w - 1 and bottom == y + h - 1;
 * its width and height are recovered as right - left + 1 and bottom - top + 1.
 * Qt's source is not part of this model: the containment test below is taken from
 * Qt's documented behaviour and is an assumption of the model.
 */
module Geometry {

  datatype Point = Point(x: int, y: int)

  datatype QRect = QRect(left: int, top: int, right: int, bottom: int)

  /** `QRect(x, y, w, h)`. */
  function RectFromXYWH(x: int, y: int, w: int, h: int): (r: QRect)
    ensures r.left == x && r.top == y && Width(r) == w && Height(r) == h
  {
    QRect(x, y, x + w - 1, y + h - 1)
  }

  function Width(r: QRect): int { r.right - r.left + 1 }

  function Height(r: QRect): int { r.bottom - r.top + 1 }

  function TopLeft(r: QRect): Point { Point(r.left, r.top) }

  function TopRight(r: QRect): Point { Point(r.right, r.top) }

  function BottomLeft(r: QRect): Point { Point(r.left, r.bottom) }

  function BottomRight(r: QRect): Point { Point(r.right, r.bottom) }

  /** The span of columns (or rows) a pair of edges covers; Qt swaps the edges of a
      rectangle whose size is negative, so such a rectangle covers the mirrored span. */
  function Span(lo: int, hi: int): (int, int)
  {
    if hi < lo - 1 then (hi + 1, lo - 1) else (lo, hi)
  }

  /** `QRect.contains(QPoint)` (not proper): the point lies on or inside the edges. */
  predicate Contains(r: QRect, p: Point)
  {
    var (l, rt) := Span(r.left, r.right);
    var (t, b) := Span(r.top, r.bottom);
    l <= p.x <= rt && t <= p.y <= b
  }

  /** Containment in terms of the (x, y, w, h) the rectangle was built from: a half-open
      range on each axis, mirrored when the size is negative, and empty when it is zero. */
  lemma ContainsXYWH(x: int, y: int, w: int, h: int, p: Point)
    ensures Contains(RectFromXYWH(x, y, w, h), p) <==>
      (if w >= 0 then x <= p.x < x + w else x + w <= p.x < x) &&
      (if h >= 0 then y <= p.y < y + h else y + h <= p.y < y)
  {
  }

  /** The centre point the windows compute for a person box `(x, y, w, h)`:
      `(x + w // 2, y + h // 2)`. Python's `//` floors; Dafny's `/` by the positive
      divisor 2 floors as well. */
  function Centre(x: int, y: int, w: int, h: int): (c: Point)
    ensures 2 * (c.x - x) <= w < 2 * (c.x - x) + 2
    ensures 2 * (c.y - y) <= h < 2 * (c.y - y) + 2
  {
    Point(x + w / 2, y + h / 2)
  }

  /** The centre of a box of positive size lies inside that box. */
  lemma CentreInside(x: int, y: int, w: int, h: int)
    requires w > 0 && h > 0
    ensures Contains(RectFromXYWH(x, y, w, h), Centre(x, y, w, h))
  {
    ContainsXYWH(x, y, w, h, Centre(x, y, w, h));
  }
}
