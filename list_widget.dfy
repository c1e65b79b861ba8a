/** A list widget of the document configuration panel
    (QtApp/src/qtapp/components/DocConfig.py): its items, its current row,
    and the add / remove / change / up / down buttons that edit it. Dialog
    input (the text and the OK flag of `QInputDialog.getText`) is a
    parameter, and the `list_widget_changed` signal is reported as a
    Boolean. */
module ListWidget {
  // ---- one list widget, as a value ----

  /** The items of a list widget and its current row (-1 for none). */
  datatype Rows = Rows(items: seq<string>, current: int)

  predicate ValidRows(s: Rows) {
    -1 <= s.current < |s.items|
  }

  /** `xs` without the item at `i`. */
  function Delete(xs: seq<string>, i: int): (r: seq<string>)
    requires 0 <= i < |xs|
    ensures |r| == |xs| - 1
    ensures forall k :: 0 <= k < i ==> r[k] == xs[k]
    ensures forall k :: i <= k < |r| ==> r[k] == xs[k + 1]
  {
    xs[..i] + xs[i + 1..]
  }

  /** `xs` with the items at `i` and `i + 1` exchanged. */
  function SwapNext(xs: seq<string>, i: int): (r: seq<string>)
    requires 0 <= i && i + 1 < |xs|
    ensures |r| == |xs| && r[i] == xs[i + 1] && r[i + 1] == xs[i]
    ensures forall k :: 0 <= k < |xs| && k != i && k != i + 1 ==> r[k] == xs[k]
  {
    xs[i := xs[i + 1]][i + 1 := xs[i]]
  }

  /** The current row after `takeItem(row)` on `n` rows. A list widget is a
      single-selection list view, and the view moves a removed current row
      to the next row (which then slides up into the same place), or, when
      the last row goes, to the row above (none when it was the only row).
      Other current rows keep their item. */
  function RowAfterTake(current: int, row: int, n: int): int {
    if current == row then (if row + 1 < n then row else row - 1)
    else if 0 <= row < current then current - 1
    else current
  }

  /** The current row after `insertItem(row, _)`: it keeps its item. */
  function RowAfterInsert(current: int, row: int): int {
    if 0 <= row <= current then current + 1 else current
  }

  /** `add_item`: appends the entered text when the dialog was accepted with
      non-empty text; `addItem` leaves the current row alone. */
  function AddRows(s: Rows, text: string, ok: bool): Rows {
    if ok && text != [] then Rows(s.items + [text], s.current) else s
  }

  /** `remove_item`: takes the current item, if there is one. */
  function RemoveRows(s: Rows): Rows
    requires ValidRows(s)
  {
    if s.current >= 0 then Rows(Delete(s.items, s.current), RowAfterTake(s.current, s.current, |s.items|))
    else s
  }

  /** `change_item`: replaces the current item's text, when there is a
      current item and the dialog was accepted with non-empty text. */
  function ChangeRows(s: Rows, text: string, ok: bool): Rows
    requires ValidRows(s)
  {
    if s.current >= 0 && ok && text != [] then Rows(s.items[s.current := text], s.current) else s
  }

  /** `move_up`: the current item changes place with the one above it, and
      stays current. */
  function MoveUpRows(s: Rows): Rows
    requires ValidRows(s)
  {
    if s.current > 0 then Rows(SwapNext(s.items, s.current - 1), s.current - 1) else s
  }

  /** `move_down`: the current item changes place with the one below it, and
      stays current. */
  function MoveDownRows(s: Rows): Rows
    requires ValidRows(s)
  {
    if 0 <= s.current < |s.items| - 1 then Rows(SwapNext(s.items, s.current), s.current + 1) else s
  }

  /** Every edit keeps the current row within the list. */
  lemma EditsKeepValid(s: Rows, text: string, ok: bool)
    requires ValidRows(s)
    ensures ValidRows(AddRows(s, text, ok)) && ValidRows(RemoveRows(s)) && ValidRows(ChangeRows(s, text, ok))
    ensures ValidRows(MoveUpRows(s)) && ValidRows(MoveDownRows(s))
  {
  }

  /** Moving down undoes moving up, and moving up undoes moving down. */
  lemma MoveUpThenDown(s: Rows)
    requires ValidRows(s) && s.current > 0
    ensures MoveDownRows(MoveUpRows(s)) == s
  {
    var t := MoveUpRows(s);
    assert SwapNext(t.items, t.current) == s.items;
  }

  lemma MoveDownThenUp(s: Rows)
    requires ValidRows(s) && 0 <= s.current < |s.items| - 1
    ensures MoveUpRows(MoveDownRows(s)) == s
  {
    var t := MoveDownRows(s);
    assert SwapNext(t.items, t.current - 1) == s.items;
  }

  /** A move keeps the same items, the current one included. */
  lemma MovesPermute(s: Rows)
    requires ValidRows(s)
    ensures multiset(MoveUpRows(s).items) == multiset(s.items)
    ensures multiset(MoveDownRows(s).items) == multiset(s.items)
    ensures s.current >= 0 ==> MoveUpRows(s).items[MoveUpRows(s).current] == s.items[s.current]
    ensures s.current >= 0 ==> MoveDownRows(s).items[MoveDownRows(s).current] == s.items[s.current]
  {
    if s.current > 0 {
      SwapMultiset(s.items, s.current - 1);
    }
    if 0 <= s.current < |s.items| - 1 {
      SwapMultiset(s.items, s.current);
    }
  }

  lemma SwapMultiset(xs: seq<string>, i: int)
    requires 0 <= i && i + 1 < |xs|
    ensures multiset(SwapNext(xs, i)) == multiset(xs)
  {
    var ys := SwapNext(xs, i);
    assert xs == xs[..i] + [xs[i], xs[i + 1]] + xs[i + 2..];
    assert ys == xs[..i] + [xs[i + 1], xs[i]] + xs[i + 2..];
  }

  /** Removing takes out exactly the current item; the item after it becomes
      current, or the item before it when it was the last one, or none when
      it was the only one. */
  lemma RemoveTakesCurrent(s: Rows)
    requires ValidRows(s) && s.current >= 0
    ensures multiset(RemoveRows(s).items) + multiset{s.items[s.current]} == multiset(s.items)
    ensures s.current + 1 < |s.items| ==> RemoveRows(s).items[RemoveRows(s).current] == s.items[s.current + 1]
    ensures 0 < s.current == |s.items| - 1 ==> RemoveRows(s).items[RemoveRows(s).current] == s.items[s.current - 1]
    ensures |s.items| == 1 ==> RemoveRows(s) == Rows([], -1)
  {
    var i := s.current;
    assert s.items == s.items[..i] + [s.items[i]] + s.items[i + 1..];
  }

  // ---- the list widget ----

  class ListField {
    var items: seq<string>
    var currentRow: int

    function State(): Rows
      reads this
    {
      Rows(items, currentRow)
    }

    predicate Valid()
      reads this
    {
      ValidRows(State())
    }

    constructor ()
      ensures items == [] && currentRow == -1
    {
      items := [];
      currentRow := -1;
    }

    /** `clear`: no items and no current row. */
    method Clear()
      modifies this
      ensures items == [] && currentRow == -1
    {
      items := [];
      currentRow := -1;
    }

    /** `addItem`: appends; the current row keeps its item. */
    method AddItem(text: string)
      modifies this
      ensures items == old(items) + [text] && currentRow == old(currentRow)
    {
      items := items + [text];
    }

    /** `clear` followed by `addItem` for each of `xs`. */
    method Refill(xs: seq<string>)
      modifies this
      ensures Valid() && items == xs && currentRow == -1
    {
      Clear();
      var i := 0;
      while i < |xs|
        invariant 0 <= i <= |xs|
        invariant items == xs[..i] && currentRow == -1
      {
        AddItem(xs[i]);
        assert xs[..i + 1] == xs[..i] + [xs[i]];
        i := i + 1;
      }
    }

    /** `takeItem(row)`. */
    method TakeItem(row: int) returns (item: string)
      requires 0 <= row < |items|
      modifies this
      ensures item == old(items[row]) && items == Delete(old(items), row)
      ensures currentRow == RowAfterTake(old(currentRow), row, |old(items)|)
    {
      item := items[row];
      currentRow := RowAfterTake(currentRow, row, |items|);
      items := items[..row] + items[row + 1..];
    }

    /** `insertItem(row, item)`. */
    method InsertItem(row: int, item: string)
      requires 0 <= row <= |items|
      modifies this
      ensures items == old(items[..row]) + [item] + old(items[row..])
      ensures currentRow == RowAfterInsert(old(currentRow), row)
    {
      currentRow := RowAfterInsert(currentRow, row);
      items := items[..row] + [item] + items[row..];
    }

    /** `setCurrentRow(row)`: a row outside the list clears the current row. */
    method SetCurrentRow(row: int)
      modifies this
      ensures items == old(items) && currentRow == (if 0 <= row < |items| then row else -1)
    {
      currentRow := if 0 <= row < |items| then row else -1;
    }

    /** The add button; `changed` tells whether `list_widget_changed` is
        emitted. */
    method Add(text: string, ok: bool) returns (changed: bool)
      requires Valid()
      modifies this
      ensures Valid() && State() == AddRows(old(State()), text, ok)
      ensures changed == (ok && text != [])
    {
      changed := ok && text != [];
      if changed {
        AddItem(text);
      }
    }

    /** The remove button. */
    method Remove() returns (changed: bool)
      requires Valid()
      modifies this
      ensures Valid() && State() == RemoveRows(old(State()))
      ensures changed == (old(currentRow) >= 0)
    {
      var current := currentRow;
      changed := current >= 0;
      if changed {
        var _ := TakeItem(current);
      }
    }

    /** The change button; the dialog opens only when there is a current
        item, and `text`, `ok` are what it returns. */
    method Change(text: string, ok: bool) returns (changed: bool)
      requires Valid()
      modifies this
      ensures Valid() && State() == ChangeRows(old(State()), text, ok)
      ensures changed == (old(currentRow) >= 0 && ok && text != [])
    {
      var current := currentRow;
      changed := false;
      if current >= 0 {
        if ok && text != [] {
          items := items[current := text];
          changed := true;
        }
      }
    }

    /** The up button: take the current item, insert it one row higher and
        make that row current. */
    method MoveUp() returns (changed: bool)
      requires Valid()
      modifies this
      ensures Valid() && State() == MoveUpRows(old(State()))
      ensures changed == (old(currentRow) > 0)
    {
      var current := currentRow;
      changed := current > 0;
      if changed {
        var item := TakeItem(current);
        InsertItem(current - 1, item);
        SetCurrentRow(current - 1);
        assert items == SwapNext(old(items), current - 1);
      }
    }

    /** The down button: take the current item, insert it one row lower and
        make that row current. */
    method MoveDown() returns (changed: bool)
      requires Valid()
      modifies this
      ensures Valid() && State() == MoveDownRows(old(State()))
      ensures changed == (0 <= old(currentRow) < |old(items)| - 1)
    {
      var current := currentRow;
      changed := 0 <= current < |items| - 1;
      if changed {
        var item := TakeItem(current);
        InsertItem(current + 1, item);
        SetCurrentRow(current + 1);
        assert items == SwapNext(old(items), current);
      }
    }
  }
}
