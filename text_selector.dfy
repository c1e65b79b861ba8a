/** The rubber-band selection gesture and the folding of a viewport rectangle
    into one page's local pixel offset
    (QtApp/src/qtapp/viewerUtils/TextSelector.py). */
module Selection {
  import opened Outcomes
  import opened QtGeometry
  import PyNum

  datatype MouseButton = LeftButton | RightButton | MiddleButton | NoButton

  /** A mouse event as the handlers see it: the button and the position. */
  datatype MouseEvent = MouseEvent(button: MouseButton, pos: IntPoint)

  /** The view snapshot handed to `set_curr_state` (its nine dictionary keys). */
  datatype ViewState = ViewState(
    currentPage: int,
    zoomMode: ZoomMode,
    zoomFactor: real,
    zoomCustom: real,
    documentSize: SizeF,
    margins: real,
    viewport: IntSize,
    wOffset: real,
    hOffset: real)

  /** The gesture part of the selector: the `selecting` flag, the press origin,
      the rubber band's geometry and whether the band is shown. */
  datatype Gesture = Gesture(selecting: bool, origin: IntPoint, band: IntRect, bandVisible: bool)

  /** A child widget's geometry before it is first placed: QRect(0, 0, 100, 30). */
  const InitialBand := IntRect(0, 0, 99, 29)

  /** `QRect(origin, QSize())`: the band a press starts with; QSize() is
      (-1, -1), so the band has no area. */
  function EmptyBandAt(p: IntPoint): (r: IntRect)
    ensures r.TopLeft() == p && r.IsEmpty()
  {
    RectAt(p, InvalidSize)
  }

  /** `QRect(origin, pos).normalized()`: the band between the two points. On
      an axis where the pointer went forward (or stayed) the band runs from
      the origin to the pointer, both included; where it went back the band
      lies strictly between them, as Qt 6 turns such a rect round. */
  function Box(o: IntPoint, p: IntPoint): (r: IntRect)
    ensures r.Width() >= 0 && r.Height() >= 0
    ensures o.x <= p.x ==> r.x1 == o.x && r.x2 == p.x
    ensures p.x < o.x ==> r.x1 == p.x + 1 && r.x2 == o.x - 1
    ensures o.y <= p.y ==> r.y1 == o.y && r.y2 == p.y
    ensures p.y < o.y ==> r.y1 == p.y + 1 && r.y2 == o.y - 1
  {
    Normalized(RectFromCorners(o, p))
  }

  /** `handleMousePress`. */
  function Press(g: Gesture, e: MouseEvent): Gesture {
    if e.button == LeftButton then Gesture(true, e.pos, EmptyBandAt(e.pos), true) else g
  }

  /** `handleMouseMove`. */
  function Move(g: Gesture, e: MouseEvent): Gesture {
    if g.selecting then g.(band := Box(g.origin, e.pos)) else g
  }

  /** `handleMouseRelease`: the new gesture and the geometry passed to
      `handle_selection`, if any. */
  function Release(g: Gesture): (Gesture, Option<IntRect>) {
    if g.selecting then (g.(selecting := false, bandVisible := false), Some(g.band)) else (g, None)
  }

  /** A run of move events. */
  function Moves(g: Gesture, ps: seq<IntPoint>, button: MouseButton): Gesture
    decreases |ps|
  {
    if ps == [] then g else Move(Moves(g, ps[..|ps| - 1], button), MouseEvent(button, ps[|ps| - 1]))
  }

  lemma {:induction false} MovesWhileSelecting(g: Gesture, ps: seq<IntPoint>, button: MouseButton)
    requires g.selecting
    ensures Moves(g, ps, button).selecting && Moves(g, ps, button).origin == g.origin
    ensures Moves(g, ps, button).bandVisible == g.bandVisible
    ensures ps != [] ==> Moves(g, ps, button).band == Box(g.origin, ps[|ps| - 1])
    ensures ps == [] ==> Moves(g, ps, button) == g
    decreases |ps|
  {
    if ps != [] {
      MovesWhileSelecting(g, ps[..|ps| - 1], button);
    }
  }

  lemma {:induction false} MovesWhileIdle(g: Gesture, ps: seq<IntPoint>, button: MouseButton)
    requires !g.selecting
    ensures Moves(g, ps, button) == g
    decreases |ps|
  {
    if ps != [] {
      MovesWhileIdle(g, ps[..|ps| - 1], button);
    }
  }

  /** A full drag: a left press at `o`, any moves, then a release hands over
      the band `Box` gives for `o` and the last pointer position (the empty
      band at `o` if the pointer never moved) and leaves the selector idle
      with the band hidden. */
  lemma DragHandsOverBox(g: Gesture, o: IntPoint, ps: seq<IntPoint>, button: MouseButton)
    ensures var (after, handed) := Release(Moves(Press(g, MouseEvent(LeftButton, o)), ps, button));
      && !after.selecting && !after.bandVisible && after.origin == o
      && handed == Some(if ps == [] then EmptyBandAt(o) else Box(o, ps[|ps| - 1]))
  {
    MovesWhileSelecting(Press(g, MouseEvent(LeftButton, o)), ps, button);
  }

  /** Without a left press nothing is selected: from an idle selector, moves and
      a release hand nothing over and change nothing. */
  lemma IdleDragHandsOverNothing(g: Gesture, ps: seq<IntPoint>, button: MouseButton)
    requires !g.selecting
    ensures Release(Moves(g, ps, button)) == (g, None)
  {
    MovesWhileIdle(g, ps, button);
  }

  // ---- normalize_pixel_to_page ----

  function DocWidth(s: ViewState): real { s.documentSize.width * s.zoomFactor }
  function DocHeight(s: ViewState): real { s.documentSize.height * s.zoomFactor }

  /** The horizontal margin: the fixed margin when the page is wider than the
      view, otherwise the margin that centres the page, less one pixel. */
  function MarginW(s: ViewState): (m: real)
    ensures DocWidth(s) > s.viewport.width as real ==> m == s.margins
    ensures DocWidth(s) <= s.viewport.width as real ==>
      m + 1.0 == s.viewport.width as real - (m + 1.0 + DocWidth(s))
  {
    if DocWidth(s) > s.viewport.width as real then s.margins
    else (s.viewport.width as real - DocWidth(s)) / 2.0 - 1.0
  }

  /** The layout height of one page: the zoomed page plus one margin. */
  function PageUnitH(s: ViewState): real { DocHeight(s) + s.margins }
  function PageUnitW(s: ViewState): real { DocWidth(s) + s.margins }

  /** The selection's top edge in document coordinates. */
  function TotalY(s: ViewState, viewportPos: IntPoint, g: IntRect): real {
    (s.hOffset + (g.y1 as real - viewportPos.y as real)) - s.margins
  }

  /** The selection's left edge in document coordinates. */
  function TotalX(s: ViewState, viewportPos: IntPoint, g: IntRect): real {
    (s.wOffset + (g.x1 as real - viewportPos.x as real)) - MarginW(s)
  }

  /** The page index (`curr_page`) and the page-local offsets. */
  datatype Fold = Fold(page: int, x: real, y: real)

  /** The floor division and modulo steps, which raise ZeroDivisionError when
      a page unit is zero. */
  function FoldToPage(s: ViewState, viewportPos: IntPoint, g: IntRect): (r: Result<Fold>)
    ensures r.Ok? <==> PageUnitH(s) != 0.0 && PageUnitW(s) != 0.0
    ensures r.Ok? ==> r.value.page as real * PageUnitH(s) + r.value.y == TotalY(s, viewportPos, g)
    ensures r.Ok? && PageUnitH(s) > 0.0 ==> 0.0 <= r.value.y < PageUnitH(s)
    ensures r.Ok? ==> PyNum.FloorDiv(TotalX(s, viewportPos, g), PageUnitW(s)) as real * PageUnitW(s) + r.value.x
                      == TotalX(s, viewportPos, g)
    ensures r.Ok? && PageUnitW(s) > 0.0 ==> 0.0 <= r.value.x < PageUnitW(s)
  {
    var unitH := PageUnitH(s);
    var unitW := PageUnitW(s);
    if unitH == 0.0 || unitW == 0.0 then Err(ZeroDivisionError)
    else
      var ty := TotalY(s, viewportPos, g);
      var tx := TotalX(s, viewportPos, g);
      PyNum.DivModBounds(ty, unitH);
      PyNum.DivModBounds(tx, unitW);
      Ok(Fold(PyNum.FloorDiv(ty, unitH), PyNum.Mod(tx, unitW), PyNum.Mod(ty, unitH)))
  }

  /** `normalize_pixel_to_page`: the left and top edges are moved to the
      rounded page-local offsets; the right and bottom edges stay where the
      input had them, so the width and height are not preserved. The result is
      in pixels (nothing is divided by the zoom factor). */
  function NormalizePixelToPage(s: ViewState, viewportPos: IntPoint, g: IntRect): (r: Result<IntRect>)
    ensures r.Ok? <==> FoldToPage(s, viewportPos, g).Ok?
    ensures r.Ok? ==> && r.value.x1 == PyNum.RoundHalfEven(FoldToPage(s, viewportPos, g).value.x)
                      && r.value.y1 == PyNum.RoundHalfEven(FoldToPage(s, viewportPos, g).value.y)
                      && r.value.x2 == g.x2 && r.value.y2 == g.y2
    ensures r.Ok? && PageUnitH(s) > 0.0 ==> 0 <= r.value.y1 && r.value.y1 as real <= PageUnitH(s) + 0.5
    ensures r.Ok? && PageUnitW(s) > 0.0 ==> 0 <= r.value.x1 && r.value.x1 as real <= PageUnitW(s) + 0.5
  {
    match FoldToPage(s, viewportPos, g)
    case Err(e) => Err(e)
    case Ok(f) => Ok(SetTop(SetLeft(g, PyNum.RoundHalfEven(f.x)), PyNum.RoundHalfEven(f.y)))
  }

  /** Scrolling down by exactly one page unit selects the same page-local
      rectangle one page further on. */
  lemma ScrollOnePageDown(s: ViewState, viewportPos: IntPoint, g: IntRect)
    requires PageUnitH(s) != 0.0 && PageUnitW(s) != 0.0
    ensures var s' := s.(hOffset := s.hOffset + PageUnitH(s));
      && FoldToPage(s', viewportPos, g).value.page == FoldToPage(s, viewportPos, g).value.page + 1
      && FoldToPage(s', viewportPos, g).value.y == FoldToPage(s, viewportPos, g).value.y
      && FoldToPage(s', viewportPos, g).value.x == FoldToPage(s, viewportPos, g).value.x
      && NormalizePixelToPage(s', viewportPos, g) == NormalizePixelToPage(s, viewportPos, g)
  {
    var s' := s.(hOffset := s.hOffset + PageUnitH(s));
    var unitH, unitW := PageUnitH(s), PageUnitW(s);
    var ty := TotalY(s, viewportPos, g);
    assert PageUnitH(s') == unitH && PageUnitW(s') == unitW;
    assert TotalX(s', viewportPos, g) == TotalX(s, viewportPos, g);
    assert TotalY(s', viewportPos, g) == ty + unitH;
    PyNum.ModShift(ty, unitH);
    assert FoldToPage(s', viewportPos, g).value
      == Fold(PyNum.FloorDiv(ty, unitH) + 1, PyNum.Mod(TotalX(s, viewportPos, g), unitW), PyNum.Mod(ty, unitH));
  }

  /** Scrolling right by one page unit gives the same page-local x. */
  lemma ScrollOneUnitRight(s: ViewState, viewportPos: IntPoint, g: IntRect)
    requires PageUnitH(s) != 0.0 && PageUnitW(s) != 0.0
    ensures var s' := s.(wOffset := s.wOffset + PageUnitW(s));
      NormalizePixelToPage(s', viewportPos, g) == NormalizePixelToPage(s, viewportPos, g)
  {
    var s' := s.(wOffset := s.wOffset + PageUnitW(s));
    var unitH, unitW := PageUnitH(s), PageUnitW(s);
    var tx := TotalX(s, viewportPos, g);
    assert PageUnitH(s') == unitH && PageUnitW(s') == unitW && MarginW(s') == MarginW(s);
    assert TotalY(s', viewportPos, g) == TotalY(s, viewportPos, g);
    assert TotalX(s', viewportPos, g) == tx + unitW;
    PyNum.ModShift(tx, unitW);
    assert FoldToPage(s', viewportPos, g).value.x == FoldToPage(s, viewportPos, g).value.x;
    assert FoldToPage(s', viewportPos, g).value.y == FoldToPage(s, viewportPos, g).value.y;
  }

  /** The selector object: the gesture fields that the mouse handlers update
      and the nine view fields that `set_curr_state` overwrites. */
  class TextSelector {
    var selecting: bool
    var origin: IntPoint
    var band: IntRect
    var bandVisible: bool

    var currentPage: int
    var zoomMode: ZoomMode
    var zoomFactor: real
    var zoomCustom: real
    var documentSize: SizeF
    var margins: real
    var viewport: IntSize
    var wOffset: real
    var hOffset: real

    function GestureOf(): Gesture
      reads this
    {
      Gesture(selecting, origin, band, bandVisible)
    }

    function State(): ViewState
      reads this
    {
      ViewState(currentPage, zoomMode, zoomFactor, zoomCustom, documentSize, margins, viewport, wOffset, hOffset)
    }

    constructor ()
      ensures GestureOf() == Gesture(false, IntPoint(0, 0), InitialBand, false)
      ensures State() == ViewState(0, Custom, 1.0, 1.0, SizeF(0.0, 0.0), 10.0, IntSize(0, 0), 0.0, 0.0)
    {
      selecting := false;
      origin := IntPoint(0, 0);
      band := InitialBand;
      bandVisible := false;
      currentPage := 0;
      zoomFactor := 1.0;
      zoomCustom := 1.0;
      zoomMode := Custom;
      viewport := IntSize(0, 0);
      documentSize := SizeF(0.0, 0.0);
      margins := 10.0;
      hOffset := 0.0;
      wOffset := 0.0;
    }

    /** `set_curr_state`: each of the nine view fields takes the matching
        entry; the gesture is untouched. */
    method SetCurrState(st: ViewState)
      modifies this
      ensures currentPage == st.currentPage && zoomMode == st.zoomMode
      ensures zoomFactor == st.zoomFactor && zoomCustom == st.zoomCustom
      ensures documentSize == st.documentSize && margins == st.margins
      ensures viewport == st.viewport && wOffset == st.wOffset && hOffset == st.hOffset
      ensures State() == st && GestureOf() == old(GestureOf())
    {
      currentPage := st.currentPage;
      zoomMode := st.zoomMode;
      zoomFactor := st.zoomFactor;
      zoomCustom := st.zoomCustom;
      documentSize := st.documentSize;
      margins := st.margins;
      viewport := st.viewport;
      wOffset := st.wOffset;
      hOffset := st.hOffset;
    }

    /** `handleMousePress`: a left press records the origin, shows an empty
        band there and starts selecting; other buttons change nothing. */
    method HandleMousePress(e: MouseEvent)
      modifies this
      ensures GestureOf() == Press(old(GestureOf()), e) && State() == old(State())
    {
      if e.button == LeftButton {
        origin := e.pos;
        band := RectAt(origin, InvalidSize);
        bandVisible := true;
        selecting := true;
      }
    }

    /** `handleMouseMove`: while selecting, the band becomes the normalized
        rect of the origin and the pointer. */
    method HandleMouseMove(e: MouseEvent)
      modifies this
      ensures GestureOf() == Move(old(GestureOf()), e) && State() == old(State())
    {
      if selecting {
        var rect := Normalized(RectFromCorners(origin, e.pos));
        band := rect;
      }
    }

    /** `handleMouseRelease`: while selecting, stops, hides the band and hands
        its geometry to `handle_selection`; otherwise a no-op. */
    method HandleMouseRelease() returns (handed: Option<IntRect>)
      modifies this
      ensures (GestureOf(), handed) == Release(old(GestureOf())) && State() == old(State())
    {
      handed := None;
      if selecting {
        selecting := false;
        bandVisible := false;
        handed := Some(band);
      }
    }
  }
}
