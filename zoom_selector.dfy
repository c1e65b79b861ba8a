/** The editable zoom combo box (QtApp/src/qtapp/viewerUtils/ZoomSelector.py):
    its fixed items, the parser that turns the current text into zoom-mode and
    zoom-factor signals, and the slots that change the current item. The
    signals a call emits are returned as a list, in emission order. */
module Zoom {
  import opened Outcomes
  import opened QtGeometry
  import opened PyText
  import PyNum

  /** The combo box's items, in insertion order. */
  const Items: seq<string> := ["Fit Width", "Fit Page", "12%", "25%", "33%", "50%", "66%",
                               "75%", "100%", "125%", "150%", "200%", "400%", "152%"]

  /** The item `reset` selects. */
  const ResetIndex := 8

  /** A signal `on_current_text_changed` emits. */
  datatype ZoomEvent = ModeChanged(mode: ZoomMode) | FactorChanged(factor: real)

  /** `on_current_text_changed(text)`. A text ending in "%" whose prefix `int`
      rejects raises ValueError before anything is emitted. */
  function OnCurrentTextChanged(text: string): (r: Result<seq<ZoomEvent>>)
    ensures text == "Fit Width" ==> r == Ok([ModeChanged(FitToWidth)])
    ensures text == "Fit Page" ==> r == Ok([ModeChanged(FitInView)])
    ensures text != "Fit Width" && text != "Fit Page" && EndsWith(text, "%") ==>
      match ParseInt(text[..|text| - 1])
      case None => r == Err(ValueError)
      case Some(n) => r == Ok([ModeChanged(Custom), FactorChanged(n as real / 100.0)])
    ensures text != "Fit Width" && text != "Fit Page" && !EndsWith(text, "%") ==> r == Ok([])
  {
    if text == "Fit Width" then Ok([ModeChanged(FitToWidth)])
    else if text == "Fit Page" then Ok([ModeChanged(FitInView)])
    else if EndsWith(text, "%") then
      match ParseInt(text[..|text| - 1])
      case None => Err(ValueError)
      case Some(zoomLevel) => Ok([ModeChanged(Custom), FactorChanged(zoomLevel as real / 100.0)])
    else Ok([])
  }

  /** The text `set_zoom_factor` writes: the truncated percentage and "%". */
  function ZoomText(zoomFactor: real): (t: string)
    ensures EndsWith(t, "%") && ParseInt(t[..|t| - 1]) == Some(PyNum.Trunc(zoomFactor * 100.0))
  {
    var t := IntToString(PyNum.Trunc(zoomFactor * 100.0)) + "%";
    assert t[..|t| - 1] == IntToString(PyNum.Trunc(zoomFactor * 100.0));
    ParseIntToString(PyNum.Trunc(zoomFactor * 100.0));
    t
  }

  /** The text "p%" of an integer percentage parses to the factor p/100, after
      the Custom mode. */
  lemma PercentTextRoundTrip(p: int)
    ensures OnCurrentTextChanged(IntToString(p) + "%") == Ok([ModeChanged(Custom), FactorChanged(p as real / 100.0)])
  {
    var t := IntToString(p) + "%";
    assert t[..|t| - 1] == IntToString(p);
    ParseIntToString(p);
    PercentText(t, p);
  }

  /** Any text made of an integer and "%" is a Custom zoom. */
  lemma PercentText(t: string, n: int)
    requires EndsWith(t, "%") && ParseInt(t[..|t| - 1]) == Some(n)
    ensures OnCurrentTextChanged(t) == Ok([ModeChanged(Custom), FactorChanged(n as real / 100.0)])
  {
    var k := |t| - 1;
    assert t[k..] == "%";
    assert t[k] == '%' by { assert t[k..][0] == t[k]; }
    assert "Fit Width"[8] == 'h' && "Fit Page"[7] == 'e';
  }

  /** The signals the text written by `set_zoom_factor(z)` produces: the Custom
      mode and the truncated percentage over 100. */
  lemma ZoomTextSignals(z: real)
    ensures OnCurrentTextChanged(ZoomText(z))
         == Ok([ModeChanged(Custom), FactorChanged(PyNum.Trunc(z * 100.0) as real / 100.0)])
  {
    PercentText(ZoomText(z), PyNum.Trunc(z * 100.0));
  }

  /** That factor lies within 0.01 of `z`, on the side of zero, and equals `z`
      exactly when `100 * z` is a whole number. */
  lemma TruncatedFactor(z: real)
    ensures var factor := PyNum.Trunc(z * 100.0) as real / 100.0;
      && (z >= 0.0 ==> 0.0 <= z - factor < 0.01)
      && (z < 0.0 ==> 0.0 <= factor - z < 0.01)
      && (factor == z <==> (z * 100.0).Floor as real == z * 100.0)
  {
    var p := PyNum.Trunc(z * 100.0);
    var factor := p as real / 100.0;
    assert z - factor == (z * 100.0 - p as real) / 100.0;
    if factor == z {
      assert p as real == z * 100.0;
    }
  }

  /** Item 8 is "100%". */
  lemma ResetItem()
    ensures Items[ResetIndex] == "100%"
  {
  }

  /** The text "100%" gives the Custom mode and the factor 1.0. */
  lemma ResetTextSignals()
    ensures OnCurrentTextChanged("100%") == Ok([ModeChanged(Custom), FactorChanged(1.0)])
  {
    assert DigitChar(1) == '1' && DigitChar(0) == '0';
    assert NatToString(10) == NatToString(1) + [DigitChar(0)];
    assert NatToString(100) == NatToString(10) + [DigitChar(0)];
    assert IntToString(100) == "100";
    assert IntToString(100) + "%" == "100%";
    PercentTextRoundTrip(100);
  }

  /** The state of the combo box that matters here: the current index and the
      line-edit text (which `setCurrentText` changes on its own). */
  class ZoomSelector {
    var currentIndex: int
    var currentText: string

    predicate Valid()
      reads this
    {
      0 <= currentIndex < |Items|
    }

    /** Adding the first item makes it current; the connections are made only
        after the items, so construction emits nothing. */
    constructor ()
      ensures Valid() && currentIndex == 0 && currentText == Items[0]
    {
      currentIndex := 0;
      currentText := Items[0];
    }

    /** Writes the line-edit text; Qt emits `currentTextChanged` only when the
        text actually changes, and the slot then runs on the new text. */
    method SetText(text: string) returns (events: Result<seq<ZoomEvent>>)
      modifies this
      ensures currentText == text && currentIndex == old(currentIndex)
      ensures events == if text == old(currentText) then Ok([]) else OnCurrentTextChanged(text)
    {
      if text == currentText {
        events := Ok([]);
      } else {
        currentText := text;
        events := OnCurrentTextChanged(text);
      }
    }

    /** `set_zoom_factor`: an editable combo box's `setCurrentText` changes
        only the line-edit text, not the current index. */
    method SetZoomFactor(zoomFactor: real) returns (events: Result<seq<ZoomEvent>>)
      modifies this
      ensures currentText == ZoomText(zoomFactor) && currentIndex == old(currentIndex)
      ensures events == if ZoomText(zoomFactor) == old(currentText) then Ok([]) else OnCurrentTextChanged(ZoomText(zoomFactor))
    {
      var percent := PyNum.Trunc(zoomFactor * 100.0);
      events := SetText(IntToString(percent) + "%");
    }

    /** `reset`: selects item 8, "100%"; when this changes the text the view
        gets the Custom mode and the factor 1.0. */
    method Reset() returns (events: Result<seq<ZoomEvent>>)
      modifies this
      ensures Valid() && currentIndex == ResetIndex && currentText == "100%"
      ensures events == if old(currentText) == "100%" then Ok([]) else Ok([ModeChanged(Custom), FactorChanged(1.0)])
    {
      currentIndex := ResetIndex;
      ResetItem();
      ResetTextSignals();
      events := SetText(Items[ResetIndex]);
    }

    /** `editing_finished`: the same parser on the line-edit text. */
    method EditingFinished() returns (events: Result<seq<ZoomEvent>>)
      ensures events == OnCurrentTextChanged(currentText)
    {
      events := OnCurrentTextChanged(currentText);
    }
  }
}
