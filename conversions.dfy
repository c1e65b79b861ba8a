/** Conversions between pymupdf's page-point values and Qt's values
    (QtApp/src/qtapp/utils/qtToPymuUtils.py), and the scaling between page
    points and pixels by the zoom factor. Every function builds a fresh value
    from its arguments. */
module Conversions {
  import opened Outcomes
  import opened QtGeometry

  /** `point_py_to_qt`. */
  function PointPyToQt(p: PyPoint): (q: PointF)
    ensures q.x == p.x && q.y == p.y
  {
    PointF(p.x, p.y)
  }

  /** `point_qt_to_py`. */
  function PointQtToPy(q: PointF): (p: PyPoint)
    ensures p.x == q.x && p.y == q.y
  {
    PyPoint(q.x, q.y)
  }

  lemma PointRoundTrips(p: PyPoint, q: PointF)
    ensures PointQtToPy(PointPyToQt(p)) == p
    ensures PointPyToQt(PointQtToPy(q)) == q
  {}

  /** `rect_py_to_qt`: a QRectF spanning the same two corners. */
  function RectPyToQt(r: PyRect): (q: RectF)
    ensures q.TopLeft() == PointPyToQt(r.TopLeft())
    ensures q.BottomRight() == PointPyToQt(r.BottomRight())
  {
    RectFFromCorners(PointPyToQt(r.TopLeft()), PointPyToQt(r.BottomRight()))
  }

  /** `rect_qt_to_py`: a pymupdf Rect spanning the same two corners. */
  function RectQtToPy(q: RectF): (r: PyRect)
    ensures r.TopLeft() == PointQtToPy(q.TopLeft())
    ensures r.BottomRight() == PointQtToPy(q.BottomRight())
  {
    PyRectFromCorners(PointQtToPy(q.TopLeft()), PointQtToPy(q.BottomRight()))
  }

  /** Both rectangle conversions keep the corners, so each undoes the other. */
  lemma RectRoundTrips(r: PyRect, q: RectF)
    ensures RectQtToPy(RectPyToQt(r)) == r
    ensures RectPyToQt(RectQtToPy(q)) == q
  {
  }

  /** `point_to_px`: despite its name it DIVIDES both coordinates by the zoom
      factor; a zero zoom factor raises ZeroDivisionError. */
  function PointToPx(p: PointF, zoom: real): (r: Result<PointF>)
    ensures r.Ok? <==> zoom != 0.0
    ensures r.Err? ==> r.error == ZeroDivisionError
  {
    if zoom == 0.0 then Err(ZeroDivisionError)
    else Ok(PointF(p.x / zoom, p.y / zoom))
  }

  /** Multiplying the result of `point_to_px` by the zoom factor gives the
      point back. */
  lemma PointToPxScales(p: PointF, zoom: real)
    requires zoom != 0.0
    ensures PointToPx(p, zoom).value.x * zoom == p.x && PointToPx(p, zoom).value.y * zoom == p.y
  {
  }

  /** `px_to_dpi`: a pixel rectangle back to page points. The size is computed
      first, then the left and top edges are moved on an empty QRectF, then the
      size is set; the result is every component divided by the zoom factor. */
  function PxToDpi(rect: RectF, zoom: real): (r: Result<RectF>)
    ensures r.Ok? <==> zoom != 0.0
    ensures r.Ok? ==> && r.value.x * zoom == rect.x && r.value.y * zoom == rect.y
                      && r.value.w * zoom == rect.w && r.value.h * zoom == rect.h
  {
    if zoom == 0.0 then Err(ZeroDivisionError)
    else
      var size := SizeF(rect.w / zoom, rect.h / zoom);
      var moved := SetTopF(SetLeftF(NullRectF, rect.x / zoom), rect.y / zoom);
      Ok(SetSizeF(moved, size))
  }

  /** `dpi_to_px`: a page-point rectangle to pixels, every component
      multiplied by the zoom factor. */
  function DpiToPx(rect: RectF, zoom: real): RectF {
    RectF(rect.x * zoom, rect.y * zoom, rect.w * zoom, rect.h * zoom)
  }

  /** `dpi_to_px` builds its result by the same setter sequence as
      `px_to_dpi`, and that sequence gives every component scaled. */
  lemma DpiToPxSetters(rect: RectF, zoom: real)
    ensures var size := SizeF(rect.w * zoom, rect.h * zoom);
      var moved := SetTopF(SetLeftF(NullRectF, rect.x * zoom), rect.y * zoom);
      SetSizeF(moved, size) == DpiToPx(rect, zoom)
  {
  }

  /** In exact arithmetic scaling to pixels and back is the identity, both
      ways round, for every non-zero zoom factor. */
  lemma ScaleRoundTrips(rect: RectF, zoom: real)
    requires zoom != 0.0
    ensures PxToDpi(DpiToPx(rect, zoom), zoom) == Ok(rect)
    ensures DpiToPx(PxToDpi(rect, zoom).value, zoom) == rect
  {
    var back := PxToDpi(DpiToPx(rect, zoom), zoom).value;
    assert back.x * zoom == rect.x * zoom;
    assert back.y * zoom == rect.y * zoom;
    assert back.w * zoom == rect.w * zoom;
    assert back.h * zoom == rect.h * zoom;
    CancelZoom(back.x, rect.x, zoom);
    CancelZoom(back.y, rect.y, zoom);
    CancelZoom(back.w, rect.w, zoom);
    CancelZoom(back.h, rect.h, zoom);
  }

  lemma CancelZoom(u: real, v: real, zoom: real)
    requires zoom != 0.0 && u * zoom == v * zoom
    ensures u == v
  {
    assert (u - v) * zoom == 0.0;
  }
}
