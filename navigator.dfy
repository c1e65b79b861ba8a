/** The page navigator panel (QtApp/src/qtapp/viewerUtils/Navigator.py): a
    spin box that shows 1-based page numbers over 0-based values, and the
    panel that moves the view's page navigator and keeps the spin box and the
    "/total" label in step. The view's QPdfPageNavigator is kept abstract: it
    is its current position, and where a history step lands is a parameter. */
module Navigation {
  import opened Outcomes
  import opened QtGeometry
  import opened PyText

  // ---- HumanReadableSpinBox: the text codec ----

  /** `textFromValue`: the decimal text of the 1-based page number. */
  function TextFromValue(v: int): (t: string)
    ensures ParseInt(t) == Some(v + 1)
  {
    ParseIntToString(v + 1);
    IntToString(v + 1)
  }

  /** `valueFromText`: `int(text) - 1`, and 0 when `int` raises ValueError. */
  function ValueFromText(text: string): (v: int)
    ensures ParseInt(text).Some? ==> v == ParseInt(text).value - 1
    ensures ParseInt(text).None? ==> v == 0
  {
    match ParseInt(text)
    case Some(n) => n - 1
    case None => 0
  }

  /** Reading back the displayed text of any value gives the value. */
  lemma ValueTextRoundTrip(v: int)
    ensures ValueFromText(TextFromValue(v)) == v
  {
  }

  /** Two different values never display the same text. */
  lemma {:induction false} TextFromValueInjective(v: int, w: int)
    requires TextFromValue(v) == TextFromValue(w)
    ensures v == w
  {
    ValueTextRoundTrip(v);
    ValueTextRoundTrip(w);
  }

  /** QValidator.State. */
  datatype ValidatorState = Invalid | Intermediate | Acceptable

  /** `validate(text, pos)` against the spin box's maximum; the text and the
      cursor position are returned unchanged. */
  function Validate(text: string, pos: int, maximum: int): (r: (ValidatorState, string, int))
    ensures r.1 == text && r.2 == pos
    ensures text == [] ==> r.0 == Intermediate
    ensures text != [] && ParseInt(text).None? ==> r.0 == Invalid
    ensures text != [] && ParseInt(text).Some? ==>
      && (r.0 == Acceptable <==> 1 <= ParseInt(text).value <= maximum + 1)
      && (r.0 == Intermediate <==> ParseInt(text).value < 1)
      && (r.0 == Invalid <==> 1 <= ParseInt(text).value && maximum + 1 < ParseInt(text).value)
  {
    if text == [] then (Intermediate, text, pos)
    else match ParseInt(text)
      case None => (Invalid, text, pos)
      case Some(val) =>
        if 1 <= val <= maximum + 1 then (Acceptable, text, pos)
        else if val < 1 then (Intermediate, text, pos)
        else (Invalid, text, pos)
  }

  /** The validator accepts exactly the texts that read back as a value in
      `0..maximum`; in particular it accepts the displayed text of every such
      value. */
  lemma ValidateAcceptsDisplayed(text: string, pos: int, maximum: int, v: int)
    ensures Validate(text, pos, maximum).0 == Acceptable <==>
      ParseInt(text).Some? && 0 <= ValueFromText(text) <= maximum
    ensures 0 <= v <= maximum ==> Validate(TextFromValue(v), pos, maximum).0 == Acceptable
  {
    if 0 <= v <= maximum {
      assert ParseInt(TextFromValue(v)) == Some(v + 1);
    }
  }

  // ---- the spin box's value as QSpinBox keeps it ----

  /** The value QSpinBox stores for a requested `v`: clamped into the range. */
  function Clamp(lo: int, hi: int, v: int): (r: int)
    requires lo <= hi
    ensures lo <= r <= hi
    ensures lo <= v <= hi ==> r == v
    ensures v < lo ==> r == lo
    ensures v > hi ==> r == hi
  {
    if v < lo then lo else if v > hi then hi else v
  }

  /** The state of a QSpinBox that matters here. */
  class SpinBox {
    var minimum: int
    var maximum: int
    var value: int

    predicate Valid()
      reads this
    {
      minimum <= value <= maximum
    }

    /** A new QSpinBox: range 0..99, value 0. */
    constructor ()
      ensures Valid() && minimum == 0 && maximum == 99 && value == 0
    {
      minimum := 0;
      maximum := 99;
      value := 0;
    }

    /** `setValue`: the value is clamped into the range. */
    method SetValue(v: int)
      requires Valid()
      modifies this
      ensures Valid() && minimum == old(minimum) && maximum == old(maximum)
      ensures value == Clamp(minimum, maximum, v)
    {
      value := Clamp(minimum, maximum, v);
    }

    /** `setRange(lo, hi)`: a maximum below the minimum is raised to it, and
        the value is clamped into the new range. */
    method SetRange(lo: int, hi: int)
      modifies this
      ensures Valid() && minimum == lo && maximum == (if hi < lo then lo else hi)
      ensures value == Clamp(minimum, maximum, old(value))
    {
      minimum := lo;
      maximum := if hi < lo then lo else hi;
      value := Clamp(minimum, maximum, value);
    }
  }

  // ---- PdfNavigator ----

  /** The navigator's current page and location. */
  datatype NavPosition = NavPosition(page: int, location: PointF)

  function Min(a: int, b: int): int { if a <= b then a else b }
  function Max(a: int, b: int): int { if a <= b then b else a }

  /** `jump_to`'s location: `point` when it is given and truthy (a QPointF is
      falsy exactly when it is null), otherwise the current location. */
  function JumpLocation(point: Option<PointF>, current: PointF): (l: PointF)
    ensures point.Some? && !IsNullPoint(point.value) ==> l == point.value
    ensures point.None? || IsNullPoint(point.value) ==> l == current
  {
    if point.Some? && !IsNullPoint(point.value) then point.value else current
  }

  class PdfNavigator {
    /** `self.nav`: None until `set_view`. */
    var nav: Option<NavPosition>
    const pageDisplay: SpinBox
    var pageLabel: string

    predicate Valid()
      reads this, pageDisplay
    {
      pageDisplay.Valid()
    }

    constructor ()
      ensures Valid() && fresh(pageDisplay) && nav == None && pageLabel == "/1"
      ensures pageDisplay.minimum == 0 && pageDisplay.maximum == 99 && pageDisplay.value == 0
    {
      nav := None;
      pageDisplay := new SpinBox();
      pageLabel := "/1";
      new;
      pageDisplay.SetValue(0);
    }

    /** `set_view`: from now on the panel drives the view's navigator, which is
        at `current`. */
    method SetView(current: NavPosition)
      modifies this
      ensures nav == Some(current) && pageLabel == old(pageLabel)
    {
      nav := Some(current);
    }

    /** `update_page_display`: the spin box is written only when the page
        differs from its value; `wrote` says whether it was. */
    method UpdatePageDisplay(pageNumber: int) returns (wrote: bool)
      requires Valid()
      modifies pageDisplay
      ensures Valid() && wrote == (pageNumber != old(pageDisplay.value))
      ensures pageDisplay.minimum == old(pageDisplay.minimum) && pageDisplay.maximum == old(pageDisplay.maximum)
      ensures pageDisplay.value ==
        (if wrote then Clamp(pageDisplay.minimum, pageDisplay.maximum, pageNumber) else old(pageDisplay.value))
    {
      wrote := pageNumber != pageDisplay.value;
      if wrote {
        pageDisplay.SetValue(pageNumber);
      }
    }

    /** `page_forward`: one page on, but not past the spin box's maximum; the
        location is kept. */
    method PageForward()
      requires Valid()
      modifies this, pageDisplay
      ensures Valid() && pageLabel == old(pageLabel)
      ensures pageDisplay.minimum == old(pageDisplay.minimum) && pageDisplay.maximum == old(pageDisplay.maximum)
      ensures old(nav).None? ==> nav == old(nav) && pageDisplay.value == old(pageDisplay.value)
      ensures old(nav).Some? ==>
        var next := Min(old(nav).value.page + 1, pageDisplay.maximum);
        && nav == Some(NavPosition(next, old(nav).value.location))
        && pageDisplay.value == Clamp(pageDisplay.minimum, pageDisplay.maximum, next)
    {
      if nav.Some? {
        var page := nav.value.page;
        var location := nav.value.location;
        var next := Min(page + 1, pageDisplay.maximum);
        nav := Some(NavPosition(next, location));
        var _ := UpdatePageDisplay(next);
      }
    }

    /** `page_back`: one page back, but not before the spin box's minimum. */
    method PageBack()
      requires Valid()
      modifies this, pageDisplay
      ensures Valid() && pageLabel == old(pageLabel)
      ensures pageDisplay.minimum == old(pageDisplay.minimum) && pageDisplay.maximum == old(pageDisplay.maximum)
      ensures old(nav).None? ==> nav == old(nav) && pageDisplay.value == old(pageDisplay.value)
      ensures old(nav).Some? ==>
        var prev := Max(old(nav).value.page - 1, pageDisplay.minimum);
        && nav == Some(NavPosition(prev, old(nav).value.location))
        && pageDisplay.value == Clamp(pageDisplay.minimum, pageDisplay.maximum, prev)
    {
      if nav.Some? {
        var page := nav.value.page;
        var location := nav.value.location;
        var prev := Max(page - 1, pageDisplay.minimum);
        nav := Some(NavPosition(prev, location));
        var _ := UpdatePageDisplay(prev);
      }
    }

    /** `history_forward`: the navigator steps forward in its history, landing
        at `landed`, and the spin box shows the page it landed on. */
    method HistoryForward(landed: NavPosition)
      requires Valid()
      modifies this, pageDisplay
      ensures Valid() && pageLabel == old(pageLabel)
      ensures pageDisplay.minimum == old(pageDisplay.minimum) && pageDisplay.maximum == old(pageDisplay.maximum)
      ensures old(nav).None? ==> nav == old(nav) && pageDisplay.value == old(pageDisplay.value)
      ensures old(nav).Some? ==>
        nav == Some(landed) && pageDisplay.value == Clamp(pageDisplay.minimum, pageDisplay.maximum, landed.page)
    {
      if nav.Some? {
        nav := Some(landed);
        var _ := UpdatePageDisplay(nav.value.page);
      }
    }

    /** `history_back`: as `history_forward`, stepping back. */
    method HistoryBack(landed: NavPosition)
      requires Valid()
      modifies this, pageDisplay
      ensures Valid() && pageLabel == old(pageLabel)
      ensures pageDisplay.minimum == old(pageDisplay.minimum) && pageDisplay.maximum == old(pageDisplay.maximum)
      ensures old(nav).None? ==> nav == old(nav) && pageDisplay.value == old(pageDisplay.value)
      ensures old(nav).Some? ==>
        nav == Some(landed) && pageDisplay.value == Clamp(pageDisplay.minimum, pageDisplay.maximum, landed.page)
    {
      if nav.Some? {
        nav := Some(landed);
        var _ := UpdatePageDisplay(nav.value.page);
      }
    }

    /** `jump_to(page_number, point)`. */
    method JumpTo(pageNumber: int, point: Option<PointF>)
      requires Valid()
      modifies this, pageDisplay
      ensures Valid() && pageLabel == old(pageLabel)
      ensures pageDisplay.minimum == old(pageDisplay.minimum) && pageDisplay.maximum == old(pageDisplay.maximum)
      ensures old(nav).None? ==> nav == old(nav) && pageDisplay.value == old(pageDisplay.value)
      ensures old(nav).Some? ==>
        && nav == Some(NavPosition(pageNumber, JumpLocation(point, old(nav).value.location)))
        && pageDisplay.value == Clamp(pageDisplay.minimum, pageDisplay.maximum, pageNumber)
    {
      if nav.Some? {
        var location := JumpLocation(point, nav.value.location);
        nav := Some(NavPosition(pageNumber, location));
        var _ := UpdatePageDisplay(pageNumber);
      }
    }

    /** `update_nav_from_spinbox`: the navigator jumps to the spin box's value
        at the null location QPointF(). */
    method UpdateNavFromSpinbox()
      modifies this
      ensures pageLabel == old(pageLabel)
      ensures old(nav).None? ==> nav == old(nav)
      ensures old(nav).Some? ==> nav == Some(NavPosition(pageDisplay.value, PointF(0.0, 0.0)))
    {
      if nav.Some? {
        nav := Some(NavPosition(pageDisplay.value, PointF(0.0, 0.0)));
      }
    }

    /** `set_total_pages(n)`: the spin box ranges over `0..n-1` (just 0 when
        `n < 1`), its value is clamped into that range, and the pageLabel reads
        "/n". */
    method SetTotalPages(totPages: int)
      modifies this, pageDisplay
      ensures Valid() && nav == old(nav)
      ensures pageDisplay.minimum == 0 && pageDisplay.maximum == Max(0, totPages - 1)
      ensures pageDisplay.value == Clamp(0, Max(0, totPages - 1), old(pageDisplay.value))
      ensures pageLabel == "/" + IntToString(totPages)
    {
      pageDisplay.SetRange(0, totPages - 1);
      pageLabel := "/" + IntToString(totPages);
    }

    /** `get_curr_page`: None before `set_view`. */
    method GetCurrPage() returns (page: Option<int>)
      ensures page == (if nav.Some? then Some(nav.value.page) else None)
    {
      page := if nav.Some? then Some(nav.value.page) else None;
    }

    /** `get_curr_location`: None before `set_view`. */
    method GetCurrLocation() returns (location: Option<PointF>)
      ensures location == (if nav.Some? then Some(nav.value.location) else None)
    {
      location := if nav.Some? then Some(nav.value.location) else None;
    }
  }

  /** The pageLabel `set_total_pages(n)` writes reads back as `n`. */
  lemma TotalLabelReadsBack(n: int)
    ensures ParseInt(("/" + IntToString(n))[1..]) == Some(n)
  {
    assert ("/" + IntToString(n))[1..] == IntToString(n);
    ParseIntToString(n);
  }
}
