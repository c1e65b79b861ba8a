/** The PDF view that owns the selector and decides, event by event, whether a
    mouse event goes to the selector or to the view's own handler
    (QtApp/src/qtapp/viewerUtils/ExtendedView.py). */
module ViewEvents {
  import opened Outcomes
  import opened QtGeometry
  import opened Selection

  /** Where the view sends an event: to the selector, or to QPdfView's own
      handler (which does not touch the selector). */
  datatype Route = ToSelector | ToBase

  datatype ViewEvent = PressEvent(e: MouseEvent) | MoveEvent(e: MouseEvent) | ReleaseEvent(e: MouseEvent)

  /** The routing rule of the three overrides. */
  function RouteOf(enabled: bool, g: Gesture, ev: ViewEvent): (r: Route)
    ensures ev.PressEvent? ==> (r == ToSelector <==> enabled && ev.e.button == LeftButton)
    ensures !ev.PressEvent? ==> (r == ToSelector <==> enabled && g.selecting)
  {
    match ev
    case PressEvent(e) => if enabled && e.button == LeftButton then ToSelector else ToBase
    case MoveEvent(_) => if enabled && g.selecting then ToSelector else ToBase
    case ReleaseEvent(_) => if enabled && g.selecting then ToSelector else ToBase
  }

  /** The selector's gesture after the view has handled one event. */
  function Step(enabled: bool, g: Gesture, ev: ViewEvent): Gesture {
    if RouteOf(enabled, g, ev) == ToBase then g
    else match ev
      case PressEvent(e) => Press(g, e)
      case MoveEvent(e) => Move(g, e)
      case ReleaseEvent(_) => Release(g).0
  }

  /** The gesture after a whole run of events with the flag held fixed. */
  function Run(enabled: bool, g: Gesture, evs: seq<ViewEvent>): Gesture
    decreases |evs|
  {
    if evs == [] then g else Step(enabled, Run(enabled, g, evs[..|evs| - 1]), evs[|evs| - 1])
  }

  /** While selection is disabled no event sequence changes the selector. */
  lemma {:induction false} DisabledRunKeepsGesture(g: Gesture, evs: seq<ViewEvent>)
    ensures Run(false, g, evs) == g
    decreases |evs|
  {
    if evs != [] {
      DisabledRunKeepsGesture(g, evs[..|evs| - 1]);
    }
  }

  /** With selection enabled the gate loses nothing: every event routed to the
      base handler is one the selector would have ignored anyway. */
  lemma EnabledGateIsTransparent(g: Gesture, ev: ViewEvent)
    ensures Step(true, g, ev) == match ev
      case PressEvent(e) => Press(g, e)
      case MoveEvent(e) => Move(g, e)
      case ReleaseEvent(_) => Release(g).0
  {
  }

  class ExtendedView {
    const selector: TextSelector
    var selectionEnabled: bool

    /** A fresh selector in its initial state; selection starts disabled. */
    constructor ()
      ensures fresh(selector) && !selectionEnabled
      ensures selector.GestureOf() == Gesture(false, IntPoint(0, 0), InitialBand, false)
    {
      selector := new TextSelector();
      selectionEnabled := false;
    }

    /** `set_selection_enabled`. */
    method SetSelectionEnabled(enabled: bool)
      modifies this
      ensures selectionEnabled == enabled
    {
      selectionEnabled := enabled;
    }

    /** `mousePressEvent`. */
    method MousePressEvent(e: MouseEvent) returns (route: Route)
      modifies selector
      ensures route == RouteOf(selectionEnabled, old(selector.GestureOf()), PressEvent(e))
      ensures selector.GestureOf() == Step(selectionEnabled, old(selector.GestureOf()), PressEvent(e))
      ensures selector.State() == old(selector.State())
    {
      if selectionEnabled && e.button == LeftButton {
        selector.HandleMousePress(e);
        route := ToSelector;
      } else {
        route := ToBase;
      }
    }

    /** `mouseMoveEvent`. */
    method MouseMoveEvent(e: MouseEvent) returns (route: Route)
      modifies selector
      ensures route == RouteOf(selectionEnabled, old(selector.GestureOf()), MoveEvent(e))
      ensures selector.GestureOf() == Step(selectionEnabled, old(selector.GestureOf()), MoveEvent(e))
      ensures selector.State() == old(selector.State())
    {
      if selectionEnabled && selector.selecting {
        selector.HandleMouseMove(e);
        route := ToSelector;
      } else {
        route := ToBase;
      }
    }

    /** `mouseReleaseEvent`; `handed` is what reached `handle_selection`. */
    method MouseReleaseEvent(e: MouseEvent) returns (route: Route, handed: Option<IntRect>)
      modifies selector
      ensures route == RouteOf(selectionEnabled, old(selector.GestureOf()), ReleaseEvent(e))
      ensures selector.GestureOf() == Step(selectionEnabled, old(selector.GestureOf()), ReleaseEvent(e))
      ensures handed == (if route == ToSelector then Release(old(selector.GestureOf())).1 else None)
      ensures selector.State() == old(selector.State())
    {
      if selectionEnabled && selector.selecting {
        handed := selector.HandleMouseRelease();
        route := ToSelector;
      } else {
        route := ToBase;
        handed := None;
      }
    }
  }
}
