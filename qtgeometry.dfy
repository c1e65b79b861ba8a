/** The Qt and pymupdf value types the viewer works with, over exact numbers:
    QPoint/QRect (integer pixels), QPointF/QRectF/QSizeF (real), pymupdf's
    Point and Rect (real page points), and QPdfView's zoom modes. */
module QtGeometry {

  /** QPoint. */
  datatype IntPoint = IntPoint(x: int, y: int)

  /** QSize. A default-constructed QSize() is (-1, -1). */
  datatype IntSize = IntSize(width: int, height: int)

  const InvalidSize := IntSize(-1, -1)

  /** QRect keeps its left, top, right and bottom edges; right and bottom are
      inclusive, so the width is x2 - x1 + 1. */
  datatype IntRect = IntRect(x1: int, y1: int, x2: int, y2: int) {
    function Width(): int { x2 - x1 + 1 }
    function Height(): int { y2 - y1 + 1 }
    predicate IsEmpty() { x1 > x2 || y1 > y2 }
    function TopLeft(): IntPoint { IntPoint(x1, y1) }
  }

  /** `QRect(point, size)`. */
  function RectAt(p: IntPoint, s: IntSize): (r: IntRect)
    ensures r.TopLeft() == p && r.Width() == s.width && r.Height() == s.height
  {
    IntRect(p.x, p.y, p.x + s.width - 1, p.y + s.height - 1)
  }

  /** `QRect(topLeft, bottomRight)`. */
  function RectFromCorners(p: IntPoint, q: IntPoint): IntRect {
    IntRect(p.x, p.y, q.x, q.y)
  }

  /** `QRect.normalized()` (Qt 6): an axis with a negative extent (right edge
      more than one pixel left of the left edge) is turned round with its
      extent kept, the new left edge one past the old right edge and the new
      right edge one before the old left edge; an axis of zero or positive
      extent is left as it is. */
  function Normalized(r: IntRect): (n: IntRect)
    ensures n.Width() >= 0 && n.Height() >= 0
    ensures n.Width() == (if r.Width() < 0 then -r.Width() else r.Width())
    ensures n.Height() == (if r.Height() < 0 then -r.Height() else r.Height())
    ensures r.Width() >= 0 ==> n.x1 == r.x1 && n.x2 == r.x2
    ensures r.Height() >= 0 ==> n.y1 == r.y1 && n.y2 == r.y2
    ensures r.Width() < 0 ==> n.x1 == r.x2 + 1 && n.x2 == r.x1 - 1
    ensures r.Height() < 0 ==> n.y1 == r.y2 + 1 && n.y2 == r.y1 - 1
  {
    IntRect(if r.x2 < r.x1 - 1 then r.x2 + 1 else r.x1, if r.y2 < r.y1 - 1 then r.y2 + 1 else r.y1,
            if r.x2 < r.x1 - 1 then r.x1 - 1 else r.x2, if r.y2 < r.y1 - 1 then r.y1 - 1 else r.y2)
  }

  /** Normalizing twice is normalizing once. */
  lemma NormalizedIdempotent(r: IntRect)
    ensures Normalized(Normalized(r)) == Normalized(r)
  {
  }

  /** `QRect.setX(v)`: moves the left edge and keeps the right edge. */
  function SetLeft(r: IntRect, v: int): (s: IntRect)
    ensures s.x1 == v && s.x2 == r.x2 && s.y1 == r.y1 && s.y2 == r.y2
  {
    r.(x1 := v)
  }

  /** `QRect.setY(v)`: moves the top edge and keeps the bottom edge. */
  function SetTop(r: IntRect, v: int): (s: IntRect)
    ensures s.y1 == v && s.y2 == r.y2 && s.x1 == r.x1 && s.x2 == r.x2
  {
    r.(y1 := v)
  }

  /** QPointF. */
  datatype PointF = PointF(x: real, y: real)

  /** PySide's truth value of a QPointF: false exactly when `isNull()`. */
  predicate IsNullPoint(p: PointF) { p.x == 0.0 && p.y == 0.0 }

  /** QSizeF. */
  datatype SizeF = SizeF(width: real, height: real)

  /** QRectF keeps its left, top, width and height. */
  datatype RectF = RectF(x: real, y: real, w: real, h: real) {
    function TopLeft(): PointF { PointF(x, y) }
    function BottomRight(): PointF { PointF(x + w, y + h) }
  }

  const NullRectF := RectF(0.0, 0.0, 0.0, 0.0)

  /** `QRectF(topLeft, bottomRight)`. */
  function RectFFromCorners(tl: PointF, br: PointF): (r: RectF)
    ensures r.TopLeft() == tl && r.BottomRight() == br
  {
    RectF(tl.x, tl.y, br.x - tl.x, br.y - tl.y)
  }

  /** `QRectF.setX(v)`: moves the left edge and keeps the right edge. */
  function SetLeftF(r: RectF, v: real): (s: RectF)
    ensures s.x == v && s.x + s.w == r.x + r.w && s.y == r.y && s.h == r.h
  {
    RectF(v, r.y, r.x + r.w - v, r.h)
  }

  /** `QRectF.setY(v)`: moves the top edge and keeps the bottom edge. */
  function SetTopF(r: RectF, v: real): (s: RectF)
    ensures s.y == v && s.y + s.h == r.y + r.h && s.x == r.x && s.w == r.w
  {
    RectF(r.x, v, r.w, r.y + r.h - v)
  }

  /** `QRectF.setSize(size)`: keeps the top-left corner. */
  function SetSizeF(r: RectF, size: SizeF): (s: RectF)
    ensures s.TopLeft() == r.TopLeft() && s.w == size.width && s.h == size.height
  {
    RectF(r.x, r.y, size.width, size.height)
  }

  /** pymupdf.Point. */
  datatype PyPoint = PyPoint(x: real, y: real)

  /** pymupdf.Rect keeps its two corners (x0, y0) and (x1, y1). */
  datatype PyRect = PyRect(x0: real, y0: real, x1: real, y1: real) {
    function TopLeft(): PyPoint { PyPoint(x0, y0) }
    function BottomRight(): PyPoint { PyPoint(x1, y1) }
  }

  /** `pymupdf.Rect(topLeft, bottomRight)`. */
  function PyRectFromCorners(tl: PyPoint, br: PyPoint): (r: PyRect)
    ensures r.TopLeft() == tl && r.BottomRight() == br
  {
    PyRect(tl.x, tl.y, br.x, br.y)
  }

  /** QPdfView.ZoomMode. */
  datatype ZoomMode = Custom | FitToWidth | FitInView
}
