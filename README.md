# citation_linker_app: a Dafny model of the viewer core

citation_linker_app is a desktop PDF viewer built on PySide6 and pymupdf. It
links citations to their bibliography entries. This project models the parts
of the viewer that hold its logic:

- **The document configuration panel** (`DocConfig`). This covers:
  - its check boxes, combo boxes and four editable list widgets;
  - the `KEY=value` line parser and the quoted-list parser and writer;
  - `load_config`, which reads the file line by line;
  - `save_config`, which writes the eleven keys in a fixed order;
  - `clear_all_fields`, and the payload `set_data_from_view` takes from the
    viewer.

  The main result is `ConfigCodec.SaveLoadRoundTrip`. Loading the text that
  `save_config` writes restores every field, whatever the form held before,
  as long as no list item holds a quote or a line break.
- **The list-widget buttons** (add, remove, change, up, down). The current
  row after `takeItem` follows a single-selection list view: the next row
  becomes current, or the row above when the last row is taken. After
  `insertItem` the current row keeps its item. Proved: up and down undo
  each other, a move is a permutation, and remove takes out exactly the
  current item.
- **The annotation/link handler** (`TextHandler`). This covers the pixel
  records `get_all_links` and `get_all_annotations` build, and the
  `annot_action` and `link_action` edits on the current page.
  - A record's rect read back at the same zoom is the page rect.
  - The link loop raises ZeroDivisionError exactly when the zoom is 0 and
    some link has a destination.
  - "delete", "toggle_type" and "update_rect" each touch only their target.
- **The rubber-band selector** (`TextSelector`) and the view that gates it
  (`ExtendedView`). This covers the press/move/release gesture, and the
  folding of a viewport rectangle into a page index and a page-local offset
  (`normalize_pixel_to_page`).
  - The folding uses Python's floor division, modulo and round-half-even
    rules exactly.
  - Scrolling by one page unit does not change the page-local result.
- **The page navigator** (`PdfNavigator`, `HumanReadableSpinBox`) and the
  **zoom combo box** (`ZoomSelector`). The signals a slot emits are returned
  in emission order.
- **The two copies of the Qt/pymupdf conversion helpers.** Their
  round-trips are proved, and the older copy is proved to agree with the
  newer one.

Numbers are exact: Dafny `real` for Python floats and `int` for Python ints.
Python's `int(str)`, `str(int)`, `str.strip`, `round` and `int(float)` are
modelled in `PyText` and `PyNum`.

Where this model stands in for the original:
- **pymupdf** is not part of this model. Its pages, annotations and link
  dictionaries are plain values.
- **Qt widgets** are classes holding the state the code reads back: a list
  widget's items and current row, a spin box's range and value, a combo
  box's current index and text.
- **Dialogs** become parameters: the text an input dialog returns and its
  `ok` flag.
- **Files** are text: the text the config file holds, and the text
  `save_config` writes.

## Model

| member | source | states |
|---|---|---|
| ConfigCodec.ParseConfigLineCases | QtApp/src/qtapp/components/DocConfig.py:376-389 | None exactly for a blank line, a `#` comment or a line without "="; otherwise the stripped key and value around the first "=" |
| ConfigCodec.KeyValueLine | QtApp/src/qtapp/components/DocConfig.py:376-389 | a `key=value` line with a plain key and an unpadded value parses back to `(key, value)` |
| ConfigCodec.ParseListValue | QtApp/src/qtapp/components/DocConfig.py:391-398 | an empty value gives no items |
| ConfigCodec.ListRoundTrip | QtApp/src/qtapp/components/DocConfig.py:391-398 | parsing `format_list_value`'s text gives the items back when no item holds a quote |
| ConfigCodec.FindQuotedOfJoin | QtApp/src/qtapp/components/DocConfig.py:396-397 | the quoted-string search over the ", "-joined quoted items finds exactly those items, in order |
| ConfigCodec.FormatListEnds | QtApp/src/qtapp/components/DocConfig.py:455-460 | the formatted list is empty for no items and otherwise starts and ends with a quote |
| ConfigCodec.FormatListExcludes | QtApp/src/qtapp/components/DocConfig.py:455-460 | a character in no item and not in `", "` does not occur in the formatted list |
| ConfigCodec.OffsetItemsAreLabels | QtApp/src/qtapp/components/DocConfig.py:124-133 | the OFFSET items are "" followed by "-10".."-1" and "+1".."+10", built as the loop over range(-10, 11) builds them |
| ConfigCodec.DistinctItems | QtApp/src/qtapp/components/DocConfig.py:99-133 | the ANNOT_TYPE, COLOR and OFFSET items are pairwise distinct |
| ConfigCodec.FindItemFirst | QtApp/src/qtapp/components/DocConfig.py:424-435 | `findText`/`findData` returns the first index holding the value, or -1 when none does |
| ConfigCodec.FindDistinct | QtApp/src/qtapp/components/DocConfig.py:424-435 | in distinct items, finding item i gives i |
| ConfigCodec.ComboFound | QtApp/src/qtapp/components/DocConfig.py:424-435 | each combo box's current text is found at its current index |
| ConfigCodec.SaveLines | QtApp/src/qtapp/components/DocConfig.py:471-493 | eleven lines, line k being key k, "=", and the saved value of field k |
| ConfigCodec.KeyIndex | QtApp/src/qtapp/components/DocConfig.py:414-449 | the branch of the key chain a key selects, -1 for a key no branch tests |
| ConfigCodec.KeyIndexKeys | QtApp/src/qtapp/components/DocConfig.py:414-449 | a key selects a branch exactly when it is one of the eleven keys, and then the branch of that key |
| ConfigCodec.KeyIndexes | QtApp/src/qtapp/components/DocConfig.py:414-449 | each of the eleven keys selects its own branch |
| ConfigCodec.ApplyEntry | QtApp/src/qtapp/components/DocConfig.py:414-449 | one entry keeps the form valid, and an unknown key changes nothing |
| ConfigCodec.ApplyField | QtApp/src/qtapp/components/DocConfig.py:414-449 | each branch keeps the form valid: booleans by `value.lower() == "true"`, lists cleared and refilled, combo boxes moved only to an index that is found |
| ConfigCodec.ChooseItem | QtApp/src/qtapp/components/DocConfig.py:424-435 | a combo box takes the found index and keeps its own when the value is not found |
| ConfigCodec.EmptyKeyIgnored | QtApp/src/qtapp/components/DocConfig.py:411-412 | an entry with an empty key changes nothing |
| ConfigCodec.ApplyLine | QtApp/src/qtapp/components/DocConfig.py:410-449 | a line that does not parse leaves the form as it was; the form stays valid |
| ConfigCodec.ApplyParsedLine | QtApp/src/qtapp/components/DocConfig.py:410-412 | a line that parses to `(key, value)` applies that entry |
| ConfigCodec.LoadLines | QtApp/src/qtapp/components/DocConfig.py:409-449 | loading any lines keeps the form valid |
| ConfigCodec.LoadLinesStep | QtApp/src/qtapp/components/DocConfig.py:409-449 | loading one more line applies that line to the form loaded so far |
| ConfigCodec.LoadParsedLines | QtApp/src/qtapp/components/DocConfig.py:409-449 | loading lines that parse to given entries folds those entries over the form, in order |
| ConfigCodec.SplitLines | QtApp/src/qtapp/components/DocConfig.py:408-409 | the file's lines: at least one, none holding a line break |
| ConfigCodec.SplitJoin | QtApp/src/qtapp/components/DocConfig.py:496-497 | splitting the "\n"-joined lines gives those lines back when none holds a break |
| ConfigCodec.BoolValue | QtApp/src/qtapp/components/DocConfig.py:471-493 | `str(b)` is written unchanged and lowers to "true" exactly when b is true |
| ConfigCodec.SavedValuesWritable | QtApp/src/qtapp/components/DocConfig.py:471-493 | every saved value survives the line parser's strip and split |
| ConfigCodec.KeysWritable | QtApp/src/qtapp/components/DocConfig.py:471-493 | every key is non-empty, starts with no "#", holds no "=" and survives strip and split |
| ConfigCodec.SavedLinesParse | QtApp/src/qtapp/components/DocConfig.py:471-493 | each saved line holds no break and parses back to its key and saved value |
| ConfigCodec.CheckRead | QtApp/src/qtapp/components/DocConfig.py:414-449 | a saved check box's text reads back as the same check state in each check-box branch |
| ConfigCodec.ListRead | QtApp/src/qtapp/components/DocConfig.py:414-449 | a saved list reads back as the same items in each list branch |
| ConfigCodec.ComboRead | QtApp/src/qtapp/components/DocConfig.py:424-435 | a saved combo text moves the combo box back to the same index |
| ConfigCodec.SavedEntry | QtApp/src/qtapp/components/DocConfig.py:414-449 | applying saved entry k copies field k from the saved form and changes nothing else |
| ConfigCodec.SavedEntriesFrom | QtApp/src/qtapp/components/DocConfig.py:414-449 | applying saved entries k onward copies fields k onward |
| ConfigCodec.ApplySavedEntries | QtApp/src/qtapp/components/DocConfig.py:414-449 | the eleven saved entries applied in order give the saved form, whatever form they start from |
| ConfigCodec.SaveLoadRoundTrip | QtApp/src/qtapp/components/DocConfig.py:400-501 | loading the text `save_config` writes restores every field of the form when no list item holds a quote or a line break |
| ConfigCodec.ArticleTexts | QtApp/src/qtapp/components/DocConfig.py:519-526 | one "first:last" text per page range, in order |
| ConfigCodec.ArticleTextReadsBack | QtApp/src/qtapp/components/DocConfig.py:519-526 | a "first:last" text splits at its one colon into two texts that parse back to first and last |
| ConfigCodec.ArticleTextInjective | QtApp/src/qtapp/components/DocConfig.py:519-526 | two page ranges with the same text are equal |
| ConfigEditor.DocConfig.constructor | QtApp/src/qtapp/components/DocConfig.py:28-54 | unchecked boxes, empty lists, the first item of each combo box, the OFFSET items as the loop builds them, and empty kept values |
| ConfigEditor.DocConfig.LoadEntry | QtApp/src/qtapp/components/DocConfig.py:414-449 | the widgets show the entry applied to what they showed before; the kept values do not change |
| ConfigEditor.DocConfig.LoadCheckEntry | QtApp/src/qtapp/components/DocConfig.py:414-445 | a check-box key sets that box to `value.lower() == "true"` |
| ConfigEditor.DocConfig.LoadSpecialCase | QtApp/src/qtapp/components/DocConfig.py:416-419 | the SPECIAL_CASE list becomes the parsed items |
| ConfigEditor.DocConfig.LoadDelimiter | QtApp/src/qtapp/components/DocConfig.py:420-423 | the BIBLIOGRAPHY_DELIMITER list becomes the parsed items |
| ConfigEditor.DocConfig.LoadArticleBreaks | QtApp/src/qtapp/components/DocConfig.py:436-439 | the ARTICLE_BREAKS list becomes the parsed items |
| ConfigEditor.DocConfig.LoadSearchExclude | QtApp/src/qtapp/components/DocConfig.py:444-447 | the SEARCH_EXCLUDE list becomes the parsed items |
| ConfigEditor.DocConfig.LoadAnnotType | QtApp/src/qtapp/components/DocConfig.py:424-427 | the ANNOT_TYPE combo moves to the matching item, or stays |
| ConfigEditor.DocConfig.LoadColor | QtApp/src/qtapp/components/DocConfig.py:428-431 | the COLOR combo moves to the matching item, or stays |
| ConfigEditor.DocConfig.LoadOffset | QtApp/src/qtapp/components/DocConfig.py:432-435 | the OFFSET combo moves to the item whose data matches, or stays |
| ConfigEditor.DocConfig.LoadLine | QtApp/src/qtapp/components/DocConfig.py:410-449 | one line of the file applied to the form; lines that do not parse and an empty key are skipped |
| ConfigEditor.DocConfig.LoadConfig | QtApp/src/qtapp/components/DocConfig.py:400-453 | the widgets end as the file's lines loaded, in order, over what they showed, and the panel stays valid |
| ConfigEditor.DocConfig.FormatListValue | QtApp/src/qtapp/components/DocConfig.py:455-460 | the items, each in quotes, joined by ", "; "" for no items |
| ConfigEditor.DocConfig.SaveConfig | QtApp/src/qtapp/components/DocConfig.py:462-501 | the text written is the eleven saved lines of the form joined by "\n" |
| ConfigEditor.SaveLinesAre | QtApp/src/qtapp/components/DocConfig.py:471-493 | the lines appended one by one are the eleven lines in key order |
| ConfigEditor.DocConfig.ClearAllFields | QtApp/src/qtapp/components/DocConfig.py:503-517 | the widgets show the initial form again; the kept values do not change |
| ConfigEditor.DocConfig.ClearLists | QtApp/src/qtapp/components/DocConfig.py:505-513 | all four lists end empty |
| ConfigEditor.DocConfig.ArticleDeconstructData | QtApp/src/qtapp/components/DocConfig.py:519-526 | one "first:last" text per pair, in order |
| ConfigEditor.DocConfig.SetDataFromView | QtApp/src/qtapp/components/DocConfig.py:530-551 | each non-empty list of the payload replaces its kept value and its list widget's items; nothing changes without a payload |
| ListWidget.Delete | QtApp/src/qtapp/components/DocConfig.py:272-276 | the items without item i, the rest kept in order |
| ListWidget.SwapNext | QtApp/src/qtapp/components/DocConfig.py:290-304 | items i and i+1 exchanged, the others kept |
| ListWidget.EditsKeepValid | QtApp/src/qtapp/components/DocConfig.py:266-304 | every button keeps the current row within the list |
| ListWidget.MoveUpThenDown | QtApp/src/qtapp/components/DocConfig.py:290-304 | moving down undoes moving up |
| ListWidget.MoveDownThenUp | QtApp/src/qtapp/components/DocConfig.py:290-304 | moving up undoes moving down |
| ListWidget.MovesPermute | QtApp/src/qtapp/components/DocConfig.py:290-304 | a move keeps the same items, and the current row follows the moved item |
| ListWidget.SwapMultiset | QtApp/src/qtapp/components/DocConfig.py:290-304 | exchanging two neighbouring items keeps the multiset of items |
| ListWidget.RemoveTakesCurrent | QtApp/src/qtapp/components/DocConfig.py:272-276 | remove takes out exactly one copy of the current item; the next item becomes current, or the one above when the last was taken, or none when it was the only one |
| ListWidget.ListField.constructor | QtApp/src/qtapp/components/DocConfig.py:248-264 | a new list widget has no items and no current row |
| ListWidget.ListField.Clear | QtApp/src/qtapp/components/DocConfig.py:503-517 | no items and no current row |
| ListWidget.ListField.AddItem | QtApp/src/qtapp/components/DocConfig.py:266-270 | the item is appended and the current row is kept |
| ListWidget.ListField.Refill | QtApp/src/qtapp/components/DocConfig.py:416-419 | after clear and one addItem per value, the items are exactly the values |
| ListWidget.ListField.TakeItem | QtApp/src/qtapp/components/DocConfig.py:272-276 | returns the item at the row, removes it; a taken current row gives way to the next row, or to the row above when it was the last; other current rows keep their item |
| ListWidget.ListField.InsertItem | QtApp/src/qtapp/components/DocConfig.py:290-304 | the item is inserted at the row and the current item keeps its place |
| ListWidget.ListField.SetCurrentRow | QtApp/src/qtapp/components/DocConfig.py:290-304 | a row outside the list clears the current row |
| ListWidget.ListField.Add | QtApp/src/qtapp/components/DocConfig.py:266-270 | appends the entered text only when the dialog was accepted with non-empty text, and reports a change exactly then |
| ListWidget.ListField.Remove | QtApp/src/qtapp/components/DocConfig.py:272-276 | takes the current item, if any, and reports a change exactly then |
| ListWidget.ListField.Change | QtApp/src/qtapp/components/DocConfig.py:278-288 | replaces the current item's text on an accepted non-empty edit, and reports a change exactly then |
| ListWidget.ListField.MoveUp | QtApp/src/qtapp/components/DocConfig.py:290-296 | exchanges the current item with the one above and follows it, when there is one above |
| ListWidget.ListField.MoveDown | QtApp/src/qtapp/components/DocConfig.py:298-304 | exchanges the current item with the one below and follows it, when there is one below |
| PageAnnotations.LinkRecord | QtApp/src/qtapp/utils/TextHandler.py:67-81 | a link's record fails, with ZeroDivisionError, exactly when it has a destination and the zoom is 0 |
| PageAnnotations.LinkRecordFields | QtApp/src/qtapp/utils/TextHandler.py:67-81 | the record keeps kind, page and uri, scales the source rect, divides the destination by the zoom, and falls back to the rect's top-left corner without a destination |
| PageAnnotations.AnnotRecord | QtApp/src/qtapp/utils/TextHandler.py:95-117 | type name, stroke colour, opacity and border copied, the rect scaled to pixels, link fields only for a link annotation with a link |
| PageAnnotations.RecordRectsReadBack | QtApp/src/qtapp/utils/TextHandler.py:67-117 | at a non-zero zoom, `px_to_dpi` of a record's rect gives the page rect back |
| PageAnnotations.LinkRecordsStep | QtApp/src/qtapp/utils/TextHandler.py:67-81 | one more link appends its record or makes its error the result |
| PageAnnotations.LinkErrorStops | QtApp/src/qtapp/utils/TextHandler.py:67-81 | once a link raises, the whole loop raises that error |
| PageAnnotations.LinkRecordsMeaning | QtApp/src/qtapp/utils/TextHandler.py:59-82 | the loop's result is one record per link, or the error of the first link that raises |
| PageAnnotations.LinkRecordsError | QtApp/src/qtapp/utils/TextHandler.py:59-82 | the loop raises exactly when the zoom is 0 and some link has a destination, and the error is ZeroDivisionError |
| PageAnnotations.LinkRecordsEach | QtApp/src/qtapp/utils/TextHandler.py:59-82 | a successful loop gives one record per link, each the link's own record |
| PageAnnotations.AnnotActionNoOp | QtApp/src/qtapp/utils/TextHandler.py:135-158 | no annotation at the index, or an unknown action, leaves the annotations unchanged |
| PageAnnotations.DeleteAnnotRemovesOne | QtApp/src/qtapp/utils/TextHandler.py:141-142 | "delete" removes annotation i and keeps the others in order |
| PageAnnotations.ToggleChangesOnlyType | QtApp/src/qtapp/utils/TextHandler.py:145-153 | "toggle_type" swaps Underline and Highlight on annotation i, leaves any other type, and touches nothing else |
| PageAnnotations.ToggleTwice | QtApp/src/qtapp/utils/TextHandler.py:145-153 | toggling an Underline or Highlight twice gives the annotations back |
| PageAnnotations.UpdateRectMovesOne | QtApp/src/qtapp/utils/TextHandler.py:154-156 | "update_rect" with a rect moves annotation i there and changes nothing else |
| PageAnnotations.DeleteLinkFilters | QtApp/src/qtapp/utils/TextHandler.py:167-168 | after `delete_link` the page keeps exactly its links with another xref |
| PageAnnotations.UpdateLink | QtApp/src/qtapp/utils/TextHandler.py:169-171 | the link with the same xref is replaced, every other link kept |
| PageAnnotations.DeleteLinkAt | QtApp/src/qtapp/utils/TextHandler.py:167-168 | with distinct xrefs, deleting link k removes exactly link k |
| PageAnnotations.NoXref | QtApp/src/qtapp/utils/TextHandler.py:167-168 | deleting an xref no link has changes nothing |
| PageAnnotations.ChangeLinkAt | QtApp/src/qtapp/utils/TextHandler.py:169-171 | with distinct xrefs, "change" rewrites only link k's destination |
| PageAnnotations.Page.constructor | QtApp/src/qtapp/utils/TextHandler.py:59-90 | a page holds the annotations and links pymupdf yields |
| PageAnnotations.TextHandler.constructor | QtApp/src/qtapp/utils/TextHandler.py:15-32 | no document, no page, and empty link, annotation and config lists |
| PageAnnotations.TextHandler.AssignDocument | QtApp/src/qtapp/utils/TextHandler.py:41-42 | the document becomes the given pages; nothing else changes |
| PageAnnotations.PageIndex | QtApp/src/qtapp/utils/TextHandler.py:59-61 | `doc[i]` is refused exactly for the initial empty document and for a page number not below the page count; otherwise it names a page of the document, the page number itself when it is not negative, and otherwise where `load_page`'s repeated adding of the page count lands |
| PageAnnotations.WrapPageInRange | QtApp/src/qtapp/utils/TextHandler.py:59-61 | below the page count, `load_page`'s wrap lands on a page of the document, and each negative step adds one page count |
| PageAnnotations.TextHandler.GetAllLinks | QtApp/src/qtapp/utils/TextHandler.py:59-82 | IndexError, with nothing changed, for the initial empty document and for a page number not below the page count; any other page number (a negative one wrapped round as `load_page` does) loads its page, whose links become current, and the result is the loop's |
| PageAnnotations.TextHandler.BuildLinkRecords | QtApp/src/qtapp/utils/TextHandler.py:67-82 | the loop gives one record per link, or the first link's ZeroDivisionError |
| PageAnnotations.TextHandler.GetAllAnnotations | QtApp/src/qtapp/utils/TextHandler.py:84-125 | records the page index, then IndexError for the initial empty document or a page number not below the page count, or else one record per annotation of the page `load_page` lands on |
| PageAnnotations.TextHandler.GetAnnotFromIdx | QtApp/src/qtapp/utils/TextHandler.py:127-132 | the annotation at that position, None outside the list, AttributeError before any page is loaded |
| PageAnnotations.TextHandler.AnnotAction | QtApp/src/qtapp/utils/TextHandler.py:135-158 | the page's annotations become the action applied to them, its links are kept, and AttributeError comes before any page |
| PageAnnotations.TextHandler.LinkAction | QtApp/src/qtapp/utils/TextHandler.py:161-171 | IndexError outside the kept links; "delete" removes the link's xref from the page; "change" sets the destination in the kept list and on the page; any other action does nothing |
| PageAnnotations.TextHandler.GetConfigData | QtApp/src/qtapp/utils/TextHandler.py:173-179 | the three lists the handler holds |
| Selection.EmptyBandAt | QtApp/src/qtapp/viewerUtils/TextSelector.py:68-71 | the band a press starts with sits at the press point and is empty |
| Selection.Box | QtApp/src/qtapp/viewerUtils/TextSelector.py:76-79 | the band has no negative extent; on an axis the pointer moved forward on (or not at all) it runs from the origin to the pointer, both included, and on an axis it moved back on it lies strictly between them, as Qt 6 turns the rect round |
| Selection.MovesWhileSelecting | QtApp/src/qtapp/viewerUtils/TextSelector.py:75-79 | while selecting, any moves keep the origin, and the band is `Box` of the origin and the last position |
| Selection.MovesWhileIdle | QtApp/src/qtapp/viewerUtils/TextSelector.py:75-79 | while not selecting, moves change nothing |
| Selection.DragHandsOverBox | QtApp/src/qtapp/viewerUtils/TextSelector.py:66-86 | a left press, any moves and a release hand over `Box` of the origin and the last position, and leave the selector idle |
| Selection.IdleDragHandsOverNothing | QtApp/src/qtapp/viewerUtils/TextSelector.py:75-86 | without a press, moves and a release hand over nothing |
| Selection.MarginW | QtApp/src/qtapp/viewerUtils/TextSelector.py:102-105 | the fixed margin when the zoomed page is wider than the viewport, otherwise half the free width minus 1 |
| Selection.FoldToPage | QtApp/src/qtapp/viewerUtils/TextSelector.py:109-116 | ZeroDivisionError exactly when a page unit is 0; otherwise, for both x and y, the page-unit multiple (floor division) plus the offset is the document position, and the offset lies within one unit |
| Selection.NormalizePixelToPage | QtApp/src/qtapp/viewerUtils/TextSelector.py:89-128 | the left and top edges move to the rounded page-local offsets, the right and bottom edges are kept, and the same error cases apply |
| Selection.ScrollOnePageDown | QtApp/src/qtapp/viewerUtils/TextSelector.py:109-112 | scrolling down by one page unit gives the next page and the same page-local rect |
| Selection.ScrollOneUnitRight | QtApp/src/qtapp/viewerUtils/TextSelector.py:114-116 | scrolling right by one page unit gives the same page-local rect |
| Selection.TextSelector.constructor | QtApp/src/qtapp/viewerUtils/TextSelector.py:11-26 | the initial gesture and view fields |
| Selection.TextSelector.SetCurrState | QtApp/src/qtapp/viewerUtils/TextSelector.py:30-39 | each of the nine view fields takes the snapshot's value; the gesture is kept |
| Selection.TextSelector.HandleMousePress | QtApp/src/qtapp/viewerUtils/TextSelector.py:66-73 | a left press records the origin, shows an empty band and starts selecting; any other button changes nothing |
| Selection.TextSelector.HandleMouseMove | QtApp/src/qtapp/viewerUtils/TextSelector.py:75-79 | while selecting, the band spans the origin and the position |
| Selection.TextSelector.HandleMouseRelease | QtApp/src/qtapp/viewerUtils/TextSelector.py:81-86 | while selecting, stops, hides the band and hands over its geometry |
| ViewEvents.RouteOf | QtApp/src/qtapp/viewerUtils/ExtendedView.py:17-33 | a press goes to the selector exactly when selection is enabled and it is a left press; a move or release goes there exactly when selection is enabled and the selector is selecting |
| ViewEvents.DisabledRunKeepsGesture | QtApp/src/qtapp/viewerUtils/ExtendedView.py:17-33 | with selection disabled, no run of events changes the selector |
| ViewEvents.EnabledGateIsTransparent | QtApp/src/qtapp/viewerUtils/ExtendedView.py:17-33 | with selection enabled, each event changes the selector as its handler would |
| ViewEvents.ExtendedView.constructor | QtApp/src/qtapp/viewerUtils/ExtendedView.py:9-13 | a fresh idle selector, with selection disabled |
| ViewEvents.ExtendedView.SetSelectionEnabled | QtApp/src/qtapp/viewerUtils/ExtendedView.py:35-36 | the flag takes the value |
| ViewEvents.ExtendedView.MousePressEvent | QtApp/src/qtapp/viewerUtils/ExtendedView.py:17-21 | routes by the rule and updates the selector only when routed to it |
| ViewEvents.ExtendedView.MouseMoveEvent | QtApp/src/qtapp/viewerUtils/ExtendedView.py:23-27 | routes by the rule and updates the selector only when routed to it |
| ViewEvents.ExtendedView.MouseReleaseEvent | QtApp/src/qtapp/viewerUtils/ExtendedView.py:29-33 | routes by the rule; the selection is handed over only when routed to the selector |
| Navigation.TextFromValue | QtApp/src/qtapp/viewerUtils/Navigator.py:51-53 | the displayed text parses to the value plus one |
| Navigation.ValueFromText | QtApp/src/qtapp/viewerUtils/Navigator.py:55-60 | the parsed number minus one, and 0 when `int` raises ValueError |
| Navigation.ValueTextRoundTrip | QtApp/src/qtapp/viewerUtils/Navigator.py:51-60 | reading back the displayed text of any value gives the value |
| Navigation.TextFromValueInjective | QtApp/src/qtapp/viewerUtils/Navigator.py:51-53 | different values display different texts |
| Navigation.Validate | QtApp/src/qtapp/viewerUtils/Navigator.py:62-75 | text and position are returned unchanged; empty is Intermediate, non-numeric Invalid, 1..maximum+1 Acceptable, below 1 Intermediate, above Invalid |
| Navigation.ValidateAcceptsDisplayed | QtApp/src/qtapp/viewerUtils/Navigator.py:51-75 | a text is Acceptable exactly when it reads back as a value in range, and every value in range displays an Acceptable text |
| Navigation.Clamp | QtApp/src/qtapp/viewerUtils/Navigator.py:179-200 | the stored value lies in the range and equals the request when the request is in range |
| Navigation.SpinBox.constructor | QtApp/src/qtapp/viewerUtils/Navigator.py:108-113 | range 0..99 and value 0 |
| Navigation.SpinBox.SetValue | QtApp/src/qtapp/viewerUtils/Navigator.py:179-182 | the value is clamped into the unchanged range |
| Navigation.SpinBox.SetRange | QtApp/src/qtapp/viewerUtils/Navigator.py:197-200 | the range is set, a maximum below the minimum rises to it, and the value is clamped into the new range |
| Navigation.JumpLocation | QtApp/src/qtapp/viewerUtils/Navigator.py:168-171 | the given point when it is present and not null, otherwise the current location |
| Navigation.PdfNavigator.constructor | QtApp/src/qtapp/viewerUtils/Navigator.py:93-129 | no navigator yet, label "/1", spin box at 0 over 0..99 |
| Navigation.PdfNavigator.SetView | QtApp/src/qtapp/viewerUtils/Navigator.py:191-195 | the panel drives the view's navigator from its current position |
| Navigation.PdfNavigator.UpdatePageDisplay | QtApp/src/qtapp/viewerUtils/Navigator.py:176-182 | the spin box is written only when the page differs from its value, and then holds the clamped page |
| Navigation.PdfNavigator.PageForward | QtApp/src/qtapp/viewerUtils/Navigator.py:131-139 | one page on, but not past the maximum, at the same location, and the display follows; nothing without a navigator |
| Navigation.PdfNavigator.PageBack | QtApp/src/qtapp/viewerUtils/Navigator.py:141-149 | one page back, but not before the minimum, at the same location, and the display follows; nothing without a navigator |
| Navigation.PdfNavigator.HistoryForward | QtApp/src/qtapp/viewerUtils/Navigator.py:151-157 | the navigator lands where its history leads and the display follows |
| Navigation.PdfNavigator.HistoryBack | QtApp/src/qtapp/viewerUtils/Navigator.py:159-165 | the navigator lands where its history leads and the display follows |
| Navigation.PdfNavigator.JumpTo | QtApp/src/qtapp/viewerUtils/Navigator.py:167-174 | jumps to the page at the given point or the current location, and the display follows |
| Navigation.PdfNavigator.UpdateNavFromSpinbox | QtApp/src/qtapp/viewerUtils/Navigator.py:184-189 | the navigator jumps to the spin box's page at the null point |
| Navigation.PdfNavigator.SetTotalPages | QtApp/src/qtapp/viewerUtils/Navigator.py:197-200 | the spin box ranges over 0..n-1 (just 0 when n < 1), its value is clamped, and the label is "/n" |
| Navigation.PdfNavigator.GetCurrPage | QtApp/src/qtapp/viewerUtils/Navigator.py:207-210 | the current page, None without a navigator |
| Navigation.PdfNavigator.GetCurrLocation | QtApp/src/qtapp/viewerUtils/Navigator.py:212-215 | the current location, None without a navigator |
| Navigation.TotalLabelReadsBack | QtApp/src/qtapp/viewerUtils/Navigator.py:197-200 | the label after "/" parses back to the page count |
| Zoom.OnCurrentTextChanged | QtApp/src/qtapp/viewerUtils/ZoomSelector.py:47-58 | "Fit Width" and "Fit Page" select their modes; "n%" gives Custom and n/100; a "%" text without a number raises ValueError before any signal; any other text emits nothing |
| Zoom.ZoomText | QtApp/src/qtapp/viewerUtils/ZoomSelector.py:38-41 | the text ends in "%" and its number is the truncated percentage |
| Zoom.PercentTextRoundTrip | QtApp/src/qtapp/viewerUtils/ZoomSelector.py:38-58 | the text "p%" of an integer p parses back to Custom and p/100 |
| Zoom.PercentText | QtApp/src/qtapp/viewerUtils/ZoomSelector.py:47-58 | any integer-and-"%" text is a Custom zoom at that number over 100 |
| Zoom.ZoomTextSignals | QtApp/src/qtapp/viewerUtils/ZoomSelector.py:38-58 | the text `set_zoom_factor(z)` writes gives Custom and the truncated percentage over 100 |
| Zoom.TruncatedFactor | QtApp/src/qtapp/viewerUtils/ZoomSelector.py:38-41 | that factor lies within 0.01 of z on the side of zero, and equals z exactly when 100z is whole |
| Zoom.ResetItem | QtApp/src/qtapp/viewerUtils/ZoomSelector.py:27 | item 8 is "100%" |
| Zoom.ResetTextSignals | QtApp/src/qtapp/viewerUtils/ZoomSelector.py:43-58 | the text "100%" gives Custom and the factor 1.0 |
| Zoom.ZoomSelector.constructor | QtApp/src/qtapp/viewerUtils/ZoomSelector.py:12-36 | the first item is current and construction emits nothing |
| Zoom.ZoomSelector.SetText | QtApp/src/qtapp/viewerUtils/ZoomSelector.py:35 | the text is written; the slot runs only when the text changes |
| Zoom.ZoomSelector.SetZoomFactor | QtApp/src/qtapp/viewerUtils/ZoomSelector.py:38-41 | the line edit shows the truncated percentage, the current index is kept, and the signals are the slot's on a changed text |
| Zoom.ZoomSelector.Reset | QtApp/src/qtapp/viewerUtils/ZoomSelector.py:43-45 | item 8 becomes current, showing "100%", and the view gets Custom and 1.0 when the text changed |
| Zoom.ZoomSelector.EditingFinished | QtApp/src/qtapp/viewerUtils/ZoomSelector.py:60-62 | the slot's signals on the line-edit text |
| Conversions.PointPyToQt | QtApp/src/qtapp/utils/qtToPymuUtils.py:12-14 | the same coordinates |
| Conversions.PointQtToPy | QtApp/src/qtapp/utils/qtToPymuUtils.py:16-18 | the same coordinates |
| Conversions.PointRoundTrips | QtApp/src/qtapp/utils/qtToPymuUtils.py:12-18 | each point conversion undoes the other |
| Conversions.RectPyToQt | QtApp/src/qtapp/utils/qtToPymuUtils.py:20-24 | a QRectF with the same two corners |
| Conversions.RectQtToPy | QtApp/src/qtapp/utils/qtToPymuUtils.py:26-30 | a pymupdf Rect with the same two corners |
| Conversions.RectRoundTrips | QtApp/src/qtapp/utils/qtToPymuUtils.py:20-30 | each rectangle conversion undoes the other |
| Conversions.PointToPx | QtApp/src/qtapp/utils/qtToPymuUtils.py:32-36 | ZeroDivisionError exactly at zoom 0; otherwise both coordinates divided by the zoom |
| Conversions.PointToPxScales | QtApp/src/qtapp/utils/qtToPymuUtils.py:32-36 | the result times the zoom is the point |
| Conversions.PxToDpi | QtApp/src/qtapp/utils/qtToPymuUtils.py:39-51 | ZeroDivisionError exactly at zoom 0; otherwise every component divided by the zoom |
| Conversions.DpiToPxSetters | QtApp/src/qtapp/utils/qtToPymuUtils.py:53-65 | the setter sequence gives every component multiplied by the zoom |
| Conversions.ScaleRoundTrips | QtApp/src/qtapp/utils/qtToPymuUtils.py:39-65 | at a non-zero zoom each scaling undoes the other |
| LegacyConversions.RectPyToQt | QtApp/src/qtapp/qtToPymuUtils.py:5-9 | a QRectF with the same two corners |
| LegacyConversions.RectQtToPy | QtApp/src/qtapp/qtToPymuUtils.py:11-15 | a pymupdf Rect with the same two corners |
| LegacyConversions.RectRoundTrip | QtApp/src/qtapp/qtToPymuUtils.py:5-15 | Qt and back gives the rect |
| LegacyConversions.PxToDpi | QtApp/src/qtapp/qtToPymuUtils.py:17-29 | ZeroDivisionError exactly at zoom 0; otherwise every component divided by the zoom |
| LegacyConversions.DpiToPx | QtApp/src/qtapp/qtToPymuUtils.py:31-43 | every component multiplied by the zoom |
| LegacyConversions.ScaleRoundTrip | QtApp/src/qtapp/qtToPymuUtils.py:17-43 | at a non-zero zoom `px_to_dpi` undoes `dpi_to_px` |
| LegacyConversions.AgreesWithNewer | QtApp/src/qtapp/qtToPymuUtils.py:5-43 | the older copy computes what the newer copy computes, on every input |
| PyText.ParseIntToString | QtApp/src/qtapp/viewerUtils/Navigator.py:51-58 | `int(str(n)) == n` |
| PyText.IntToStringInjective | QtApp/src/qtapp/viewerUtils/Navigator.py:51-53 | different integers have different texts |
| PyText.StripNoop | QtApp/src/qtapp/components/DocConfig.py:378-387 | strip leaves a text with no surrounding whitespace unchanged |
| PyNum.DivModBounds | QtApp/src/qtapp/viewerUtils/TextSelector.py:111-116 | Python's `a // b` and `a % b`: quotient times b plus remainder is a, and the remainder has b's sign and lies within b |
| PyNum.RoundHalfEven | QtApp/src/qtapp/viewerUtils/TextSelector.py:126-127 | `round` gives the nearest integer, ties to even |
| PyNum.Trunc | QtApp/src/qtapp/viewerUtils/ZoomSelector.py:40 | `int(x)` truncates toward zero |
| QtGeometry.Normalized | QtApp/src/qtapp/viewerUtils/TextSelector.py:78 | Qt 6's rule: an axis of zero or positive extent is kept; an axis of negative extent is turned round with the same extent, its new left (top) edge one past the old right (bottom) edge and its new right (bottom) edge one before the old left (top) edge |
| QtGeometry.NormalizedIdempotent | QtApp/src/qtapp/viewerUtils/TextSelector.py:78 | normalizing a normalized rect changes nothing |
| QtGeometry.SetLeft | QtApp/src/qtapp/viewerUtils/TextSelector.py:126 | `setX` moves the left edge and keeps the other three |
| QtGeometry.SetTop | QtApp/src/qtapp/viewerUtils/TextSelector.py:127 | `setY` moves the top edge and keeps the other three |
| QtGeometry.RectFFromCorners | QtApp/src/qtapp/utils/qtToPymuUtils.py:23 | `QRectF(topLeft, bottomRight)` has those two corners |
| QtGeometry.SetSizeF | QtApp/src/qtapp/utils/qtToPymuUtils.py:49 | `setSize` keeps the top-left corner and takes the size |

## Left out

- File I/O and `get_config_path`, `set_config_path`, `get_user_shell`: the config file is its text. `load_config`'s missing-file check and its exception handler, and `save_config`'s missing-path check, are not modelled.
- `__init__` of `DocConfig` reading the config file at construction: the constructor models the state after `init_ui` only; `LoadConfig` models the load.
- Message boxes, help buttons and input dialogs: a dialog's answer is a parameter.
- `list_widget_update` and the `list_widget_changed` signal: the buttons return whether they emit it; the slot's effect is not modelled.
- The `DocConfig` attributes `debug`, `annot_type`, `color`, `offset`, `soft_year_search`, `deep_search`, `search_exclude` and `alternative_bib`: these keep their initial values throughout the code shown.
- `set_data_from_view` aliases the payload's lists; the model copies the values.
- The current rows of the list widgets after a load: `Refill` leaves no current row, which is Qt's behaviour after `clear`.
- Config lines are split at every "\n" and "\r". This matches Python's universal newlines on every line that matters, since a blank line is skipped either way.
- `find_text`, every `print`, and `handle_selection`'s printing: the geometry it receives is returned instead.
- `_del__` and `close_document`: closing a document has no state the model keeps.
- `set_viewer`: the viewer reference is not read by the modelled code.
- pymupdf is not part of this model. The model assumes of it:
  - `set_info(type=...)` changes the annotation's type code and name. This is the call's evident intent. pymupdf's documented `Annot.set_info` takes no `type` argument, so the call as written would most likely raise TypeError; the model does not capture that.
  - `annots()` behaves as a list.
  - A document with no pages rejects every page number, as the initial empty string does.
  - `delete_link` and `update_link` find the link by its xref.
  - A link without a "to" stands for a missing key.
  - TextHandler.LinkAction: a "change" to no destination leaves the link without a "to". The source's `link["to"] = new_dest` keeps the key with the value None instead; the model does not tell the two apart.
  - `if not link` in `link_action` is never taken for a link dictionary, because a link dictionary is never empty.
- QPdfPageNavigator is not modelled. Its position is a (page, location) value; `forward()`/`back()` land where the caller says.
- `get_curr_zoom`: the navigator's zoom is not part of the modelled position.
- `RepeatButton`: auto-repeat timing.
- Signal delivery: a slot's signals are returned as a list, and the connection wiring is not modelled.
- `QRect`'s integer truncation inside `dpi_to_px` and `point_to_px`: the model keeps exact reals.
- The rubber band's own clamping to its parent widget.
- Floating point: all coordinates and zoom factors are exact reals, so rounding error is left out.
- `int()` on text accepts only ASCII digits here (Python also accepts other Unicode digits); `lower()` folds ASCII letters only.
- Zoom.ZoomText: holds for the exact real `zoomFactor * 100`, not for the float product the source computes.
