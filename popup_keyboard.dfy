/**
 * `PopupKeyboardUi`: the long-press popup that lays its candidates out in
 * a grid, moves a focus as the gesture moves, and on release turns the
 * focused candidate into a key action, or into a Ctrl chord it sends
 * itself.
 */
module PopupKeyboard {

  import opened Ascii
  import opened Actions
  import opened PopupGrid

  /** Android's `KeyEvent.KEYCODE_0` and `KeyEvent.KEYCODE_A`. */
  const KEYCODE_0: int := 7
  const KEYCODE_A: int := 29

  const CtrlPrefix: string := "Ctrl+"

  /**
   * What releasing on a candidate does: nothing (no candidate under the
   * focus), a Ctrl chord sent straight to the service
   * (`sendCombinationKeyEvents(keyCode, ctrl = true)`, then `null`), or
   * a key action handed back.
   */
  datatype Trigger = NoKey | CtrlChord(keyCode: int) | Emit(action: KeyAction)

  /** The key code a Ctrl chord uses for `ch`, or 0 when `ch` has none (`A`..`Z` after upper-casing, then `0`..`9`). */
  function ChordKeyCode(ch: char): (code: int)
    ensures code == 0 || KEYCODE_0 <= code < KEYCODE_0 + 10 || KEYCODE_A <= code < KEYCODE_A + 26
  {
    var upper := UpperChar(ch);
    if IsUpper(upper) then KEYCODE_A + (upper as int - 'A' as int)
    else if IsDigit(ch) then KEYCODE_0 + (ch as int - '0' as int)
    else 0
  }

  /** The character a chord key code stands for: the inverse of `ChordKeyCode` on its image. */
  function KeyCodeChar(code: int): char
    requires KEYCODE_0 <= code < KEYCODE_0 + 10 || KEYCODE_A <= code < KEYCODE_A + 26
  {
    if code >= KEYCODE_A then ('A' as int + (code - KEYCODE_A)) as char
    else ('0' as int + (code - KEYCODE_0)) as char
  }

  /** The candidate string's meaning on release (the body of `onTrigger` after the lookup). */
  function ClassifyKey(raw: string): (t: Trigger)
    ensures !t.NoKey?
  {
    if |raw| > |CtrlPrefix| && raw[..|CtrlPrefix|] == CtrlPrefix then
      var rest := raw[|CtrlPrefix|..];
      var code := ChordKeyCode(rest[0]);
      if code != 0 then CtrlChord(code)
      else Emit(FcitxKeyAction(rest, States({Ctrl, Virtual})))
    else Emit(FcitxKeyAction(raw, DefaultStates))
  }

  /** A candidate that is not `Ctrl+` followed by something is emitted as it is, with default states. */
  lemma PlainKey(raw: string)
    requires !(|raw| > 5 && raw[..5] == "Ctrl+")
    ensures ClassifyKey(raw) == Emit(FcitxKeyAction(raw, DefaultStates))
  {
  }

  /**
   * `Ctrl+` followed by a letter or digit is a chord on that key (letters
   * in either case give the same chord); followed by anything else it is
   * the rest emitted with Ctrl and Virtual set.
   */
  lemma CtrlKey(rest: string)
    requires rest != ""
    ensures IsLetter(rest[0]) ==>
      ClassifyKey(CtrlPrefix + rest) == CtrlChord(KEYCODE_A + (UpperChar(rest[0]) as int - 'A' as int))
    ensures IsDigit(rest[0]) ==>
      ClassifyKey(CtrlPrefix + rest) == CtrlChord(KEYCODE_0 + (rest[0] as int - '0' as int))
    ensures !IsLetter(rest[0]) && !IsDigit(rest[0]) ==>
      ClassifyKey(CtrlPrefix + rest) == Emit(FcitxKeyAction(rest, States({Ctrl, Virtual})))
  {
    var raw := CtrlPrefix + rest;
    assert raw[..|CtrlPrefix|] == CtrlPrefix;
    assert raw[|CtrlPrefix|..] == rest;
  }

  /**
   * A chord loses nothing but letter case: its key code gives back the
   * upper-cased first character after `Ctrl+`, so distinct chords come
   * from distinct keys.
   */
  lemma ChordDecodes(raw: string, code: int)
    requires ClassifyKey(raw) == CtrlChord(code)
    ensures |raw| > 5 && raw[..5] == "Ctrl+"
    ensures KEYCODE_0 <= code < KEYCODE_0 + 10 || KEYCODE_A <= code < KEYCODE_A + 26
    ensures KeyCodeChar(code) == UpperChar(raw[5])
  {
  }

  /** Every chord key code is produced by `Ctrl+` and the character it stands for. */
  lemma ChordRoundTrip(code: int)
    requires KEYCODE_0 <= code < KEYCODE_0 + 10 || KEYCODE_A <= code < KEYCODE_A + 26
    ensures ClassifyKey(CtrlPrefix + [KeyCodeChar(code)]) == CtrlChord(code)
  {
    CtrlKey([KeyCodeChar(code)]);
  }

  /** The documented cases: `Ctrl+a` is the chord on A, `Ctrl+é` falls back to an action, `x` is a plain key. */
  lemma DocumentedTriggers()
    ensures ClassifyKey("Ctrl+a") == CtrlChord(29)
    ensures ClassifyKey("Ctrl+7") == CtrlChord(14)
    ensures ClassifyKey("Ctrl+é") == Emit(FcitxKeyAction("é", States({Ctrl, Virtual})))
    ensures ClassifyKey("Ctrl+") == Emit(FcitxKeyAction("Ctrl+", DefaultStates))
    ensures ClassifyKey("x") == Emit(FcitxKeyAction("x", DefaultStates))
  {
    CtrlKey("a");
    CtrlKey("7");
    CtrlKey("é");
  }

  class PopupKeyboardUi {
    /** The candidates' key strings and their labels. */
    const keys: seq<string>
    const labels: seq<string>
    const rowCount: int
    const columnCount: int
    /** The initially focused cell: bottom row, `focusColumn`. */
    const focusRow: int
    const focusColumn: int
    const columnOrder: seq<int>
    const keyOrders: seq<seq<int>>
    const offsetX: int
    const offsetY: int
    var focusedIndex: int

    /** The grid is sized for `keys` and laid out from a column permutation; the focus is one of its slots. */
    ghost predicate Valid()
      reads this
    {
      && |keys| >= 1
      && rowCount == RowCount(|keys|) && columnCount == ColumnCount(|keys|)
      && focusRow == 0 && 0 <= focusColumn < columnCount
      && IsPermutation(columnOrder, columnCount)
      && keyOrders == KeyOrders(rowCount, columnCount, columnOrder)
      && 0 <= focusedIndex < rowCount * columnCount
    }

    /**
     * The initialisation. `focusColumn` and `columnOrder` are what
     * `calcInitialFocusedColumn` and `createColumnOrder` return; the
     * trigger and key sizes are in pixels.
     */
    constructor (keys: seq<string>, labels: seq<string>, focusColumn: int, columnOrder: seq<int>,
                 triggerWidth: int, triggerHeight: int, keyWidth: int, keyHeight: int, popupHeight: int)
      requires |keys| >= 1
      requires 0 <= focusColumn < ColumnCount(|keys|) && IsPermutation(columnOrder, ColumnCount(|keys|))
      ensures Valid()
      ensures this.keys == keys && this.labels == labels
      ensures this.focusColumn == focusColumn && this.columnOrder == columnOrder
      ensures offsetX == OffsetX(triggerWidth, keyWidth, focusColumn)
      ensures offsetY == OffsetY(triggerHeight, popupHeight, keyHeight, RowCount(|keys|))
      ensures focusedIndex == keyOrders[0][focusColumn]
      ensures IsColumnOrder(columnOrder, columnCount, focusColumn) ==> focusedIndex == 0
    {
      var r := RowCount(|keys|);
      var c := ColumnCount(|keys|);
      this.keys := keys;
      this.labels := labels;
      rowCount := r;
      columnCount := c;
      focusRow := 0;
      this.focusColumn := focusColumn;
      this.columnOrder := columnOrder;
      offsetX := OffsetX(triggerWidth, keyWidth, focusColumn);
      offsetY := OffsetY(triggerHeight, popupHeight, keyHeight, r);
      var orders := KeyOrders(r, c, columnOrder);
      keyOrders := orders;
      KeyOrdersInRange(r, c, columnOrder);
      focusedIndex := orders[0][focusColumn];
    }

    /**
     * `onChangeFocus` on the already rounded gesture coordinates: returns
     * whether the popup dismisses itself; otherwise the focus moves onto
     * the candidate under the clamped cell if it has a key view.
     */
    method OnChangeFocus(rowShift: int, column: int) returns (dismiss: bool)
      requires Valid()
      modifies this`focusedIndex
      ensures Valid()
      ensures FocusStep(dismiss, focusedIndex)
              == ChangeFocus(rowCount, columnCount, keyOrders, |labels|, old(focusedIndex), rowShift, column)
    {
      var newRow := rowCount - rowShift;
      var newColumn := column;
      if newRow < -2 || newRow > rowCount + 1 || newColumn < -2 || newColumn > columnCount + 1 {
        return true;
      }
      newRow := LimitIndex(newRow, rowCount);
      newColumn := LimitIndex(newColumn, columnCount);
      var newFocus := keyOrders[newRow][newColumn];
      KeyOrdersInRange(rowCount, columnCount, columnOrder);
      if newFocus < |labels| {
        focusedIndex := newFocus;
      }
      return false;
    }

    /** `onTrigger`: classify the focused candidate's key string, if there is one. */
    method OnTrigger() returns (t: Trigger)
      ensures t.NoKey? <==> !(0 <= focusedIndex < |keys|)
      ensures 0 <= focusedIndex < |keys| ==> t == ClassifyKey(keys[focusedIndex])
    {
      if 0 <= focusedIndex < |keys| {
        t := ClassifyKey(keys[focusedIndex]);
      } else {
        t := NoKey;
      }
    }
  }
}
