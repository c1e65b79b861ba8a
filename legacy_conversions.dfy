/** The older copy of the conversion helpers (QtApp/src/qtapp/qtToPymuUtils.py).
    It builds the corner points inline instead of through point helpers; the
    lemma at the end shows that it computes what the newer copy computes. */
module LegacyConversions {
  import opened Outcomes
  import opened QtGeometry
  import Conversions

  /** `rect_py_to_qt`. */
  function RectPyToQt(r: PyRect): (q: RectF)
    ensures q.TopLeft() == PointF(r.x0, r.y0) && q.BottomRight() == PointF(r.x1, r.y1)
  {
    RectFFromCorners(PointF(r.TopLeft().x, r.TopLeft().y), PointF(r.BottomRight().x, r.BottomRight().y))
  }

  /** `rect_qt_to_py`. */
  function RectQtToPy(q: RectF): (r: PyRect)
    ensures r.TopLeft() == PyPoint(q.x, q.y) && r.BottomRight() == PyPoint(q.x + q.w, q.y + q.h)
  {
    PyRectFromCorners(PyPoint(q.TopLeft().x, q.TopLeft().y), PyPoint(q.BottomRight().x, q.BottomRight().y))
  }

  /** `rect_qt_to_py(rect_py_to_qt(r))` gives back both corners of `r`. */
  lemma RectRoundTrip(r: PyRect)
    ensures RectQtToPy(RectPyToQt(r)) == r
  {}

  /** `px_to_dpi`: every component divided by the zoom factor. */
  function PxToDpi(rect: RectF, zoom: real): (r: Result<RectF>)
    ensures r.Ok? <==> zoom != 0.0
    ensures r.Ok? ==> && r.value.x * zoom == rect.x && r.value.y * zoom == rect.y
                      && r.value.w * zoom == rect.w && r.value.h * zoom == rect.h
  {
    if zoom == 0.0 then Err(ZeroDivisionError)
    else
      var size := SizeF(rect.w / zoom, rect.h / zoom);
      Ok(SetSizeF(SetTopF(SetLeftF(NullRectF, rect.x / zoom), rect.y / zoom), size))
  }

  /** `dpi_to_px`: every component multiplied by the zoom factor. */
  function DpiToPx(rect: RectF, zoom: real): (r: RectF)
    ensures r.x == rect.x * zoom && r.y == rect.y * zoom
    ensures r.w == rect.w * zoom && r.h == rect.h * zoom
  {
    var size := SizeF(rect.w * zoom, rect.h * zoom);
    SetSizeF(SetTopF(SetLeftF(NullRectF, rect.x * zoom), rect.y * zoom), size)
  }

  /** For a non-zero zoom factor `px_to_dpi` undoes `dpi_to_px`. */
  lemma {:induction false} ScaleRoundTrip(rect: RectF, zoom: real)
    requires zoom != 0.0
    ensures PxToDpi(DpiToPx(rect, zoom), zoom) == Ok(rect)
  {
    var back := PxToDpi(DpiToPx(rect, zoom), zoom).value;
    Conversions.CancelZoom(back.x, rect.x, zoom);
    Conversions.CancelZoom(back.y, rect.y, zoom);
    Conversions.CancelZoom(back.w, rect.w, zoom);
    Conversions.CancelZoom(back.h, rect.h, zoom);
  }

  /** The older copy and the newer one agree on every input. */
  lemma AgreesWithNewer(r: PyRect, q: RectF, zoom: real)
    ensures RectPyToQt(r) == Conversions.RectPyToQt(r)
    ensures RectQtToPy(q) == Conversions.RectQtToPy(q)
    ensures PxToDpi(q, zoom) == Conversions.PxToDpi(q, zoom)
    ensures DpiToPx(q, zoom) == Conversions.DpiToPx(q, zoom)
  {}
}
