/**
 * The geometry of the long-press popup keyboard (`PopupKeyboardUi`): grid
 * size from the candidate count, placement offsets, the `keyOrders` table,
 * and the focus step a gesture coordinate drives.
 *
 * Grid sizing, offsets and `keyOrders` are computed once and never change;
 * they are pure functions here. Gesture coordinates arrive already rounded:
 * `rowShift` is `(y / keyHeight - 0.2).roundToInt()` and `column` is
 * `floor(x / keyWidth)`.
 */
module PopupGrid {

  /** `ceil(n / 5f)`. */
  function RowCount(n: int): (r: int)
    requires n >= 1
    ensures r >= 1 && 5 * (r - 1) < n <= 5 * r
  {
    (n + 4) / 5
  }

  /** `(n / rowCount.toFloat()).roundToInt()`, rounding half up. */
  function ColumnCount(n: int): (c: int)
    requires n >= 1
    ensures 1 <= c <= 5
    // c is the nearest integer to n / rowCount, ties upwards
    ensures 2 * RowCount(n) * c - RowCount(n) <= 2 * n < 2 * RowCount(n) * c + RowCount(n)
  {
    var r := RowCount(n);
    ColumnCountBounds(n, r);
    (2 * n + r) / (2 * r)
  }

  lemma PositiveFactor(d: int, q: int)
    requires d > 0 && d * q > 0
    ensures q > 0
  {
  }

  lemma SmallerFactor(d: int, q: int, k: int)
    requires d > 0 && d * q < d * k
    ensures q < k
  {
  }

  lemma ColumnCountBounds(n: int, r: int)
    requires n >= 1 && r == RowCount(n)
    ensures var c := (2 * n + r) / (2 * r);
      1 <= c <= 5 && 2 * r * c - r <= 2 * n < 2 * r * c + r
  {
    var d := 2 * r;
    var q := (2 * n + r) / d;
    var m := (2 * n + r) % d;
    assert 2 * n + r == d * q + m && 0 <= m < d;
    assert r <= n;
    assert d * q > 0;
    PositiveFactor(d, q);
    assert d * q < d * 6;
    SmallerFactor(d, q, 6);
    assert 2 * r * q == d * q;
  }

  /** The grid holds fewer cells than candidates for 13 of them: 3 rows of 4. */
  lemma ThirteenCandidates()
    ensures RowCount(13) == 3 && ColumnCount(13) == 4 && RowCount(13) * ColumnCount(13) == 12
  {
  }

  /** Kotlin's `Int /`, which truncates toward zero. */
  function TruncDiv(a: int, b: int): (q: int)
    requires b > 0
    ensures a >= 0 ==> 0 <= a - b * q < b
    ensures a < 0 ==> -b < a - b * q <= 0
  {
    if a >= 0 then a / b else -((-a) / b)
  }

  /** `offsetX`. */
  function OffsetX(triggerWidth: int, keyWidth: int, focusColumn: int): int {
    TruncDiv(triggerWidth - keyWidth, 2) - keyWidth * focusColumn
  }

  /** `offsetY`. */
  function OffsetY(triggerHeight: int, popupHeight: int, keyHeight: int, rowCount: int): int {
    (triggerHeight - popupHeight) - keyHeight * (rowCount - 1)
  }

  /**
   * Placement: the focused column's key, `focusColumn` keys right of the
   * container's left edge, is centred over the trigger to within half a
   * pixel.
   */
  lemma PopupPlacement(triggerWidth: int, keyWidth: int, focusColumn: int)
    ensures var left := OffsetX(triggerWidth, keyWidth, focusColumn) + keyWidth * focusColumn;
      -1 <= (triggerWidth - keyWidth) - 2 * left <= 1
  {
  }

  /** `order` lists each of 0 .. c-1 once. */
  predicate IsPermutation(order: seq<int>, c: int) {
    && |order| == c
    && (forall i :: 0 <= i < c ==> 0 <= order[i] < c)
    && (forall i, j :: 0 <= i < j < c ==> order[i] != order[j])
  }

  /**
   * What `createColumnOrder(columnCount, focusColumn)` is assumed to deliver
   * (its code is not part of this model): a permutation of the columns that
   * seats candidate slot 0 under the focused column.
   */
  predicate IsColumnOrder(order: seq<int>, c: int, focusColumn: int) {
    IsPermutation(order, c) && 0 <= focusColumn < c && order[focusColumn] == 0
  }

  lemma {:induction false} InjectiveImageSize(order: seq<int>, k: nat)
    requires k <= |order|
    requires forall i, j :: 0 <= i < j < |order| ==> order[i] != order[j]
    ensures |set i | 0 <= i < k :: order[i]| == k
  {
    if k > 0 {
      InjectiveImageSize(order, k - 1);
      var s := set i | 0 <= i < k - 1 :: order[i];
      assert (set i | 0 <= i < k :: order[i]) == s + {order[k - 1]};
      assert order[k - 1] !in s;
    }
  }

  lemma SubsetSize<T>(a: set<T>, b: set<T>)
    requires a <= b
    ensures |a| <= |b|
  {
    assert b == a + (b - a);
  }

  /** A permutation of the columns is onto: every column slot occurs in it. */
  lemma PermutationCovers(order: seq<int>, c: int)
    requires IsPermutation(order, c)
    ensures forall v :: 0 <= v < c ==> v in order
  {
    var ids := seq(c, (i: int) => i);
    var image := set i | 0 <= i < c :: order[i];
    var range := set i | 0 <= i < c :: ids[i];
    InjectiveImageSize(order, c);
    InjectiveImageSize(ids, c);
    forall v | 0 <= v < c
      ensures v in order
    {
      if v !in image {
        forall w | w in image
          ensures w in range - {v}
        {
          var i :| 0 <= i < c && order[i] == w;
          assert ids[w] == w;
        }
        assert ids[v] == v;
        SubsetSize(image, range - {v});
        assert false;
      }
    }
  }

  /** `keyOrders`: row `row` (row 0 at the bottom), column `col` holds candidate `row * c + order[col]`. */
  function KeyOrders(r: int, c: int, order: seq<int>): (k: seq<seq<int>>)
    requires r >= 0 && |order| == c
    ensures |k| == r && forall row :: 0 <= row < r ==> |k[row]| == c
  {
    seq(r, (row: int) requires 0 <= row < r =>
      seq(c, (col: int) requires 0 <= col < c => row * c + order[col]))
  }

  /** A table of `r` rows of `c` columns. */
  predicate GridShape(r: int, c: int, k: seq<seq<int>>) {
    r >= 1 && c >= 1 && |k| == r && forall row :: 0 <= row < r ==> |k[row]| == c
  }

  lemma CellBound(row: int, a: int, r: int, c: int)
    requires 0 <= row < r && 0 <= a < c
    ensures 0 <= row * c + a < r * c
  {
    assert row * c <= (r - 1) * c;
  }

  lemma MulMonotone(x: int, y: int, c: int)
    requires x <= y && c >= 0
    ensures x * c <= y * c
  {
    assert y * c - x * c == (y - x) * c;
  }

  lemma CellUnique(row: int, a: int, row': int, a': int, c: int)
    requires 0 <= row && 0 <= row' && 0 <= a < c && 0 <= a' < c
    requires row * c + a == row' * c + a'
    ensures row == row' && a == a'
  {
    if row < row' {
      MulMonotone(row + 1, row', c);
      assert false;
    } else if row' < row {
      MulMonotone(row' + 1, row, c);
      assert false;
    }
  }

  lemma CellOf(v: int, r: int, c: int)
    requires c >= 1 && 0 <= v < r * c
    ensures 0 <= v / c < r && 0 <= v % c < c && v == (v / c) * c + v % c
  {
  }

  /** Every cell holds a slot in 0 .. r*c-1. */
  lemma KeyOrdersInRange(r: int, c: int, order: seq<int>)
    requires r >= 1 && IsPermutation(order, c)
    ensures var k := KeyOrders(r, c, order);
      forall row, col :: 0 <= row < r && 0 <= col < c ==> 0 <= k[row][col] < r * c
  {
    var k := KeyOrders(r, c, order);
    forall row, col | 0 <= row < r && 0 <= col < c
      ensures 0 <= k[row][col] < r * c
    {
      CellBound(row, order[col], r, c);
    }
  }

  /** No two cells hold the same slot. */
  lemma KeyOrdersInjective(r: int, c: int, order: seq<int>)
    requires r >= 1 && IsPermutation(order, c)
    ensures var k := KeyOrders(r, c, order);
      forall row, col, row', col' ::
        0 <= row < r && 0 <= col < c && 0 <= row' < r && 0 <= col' < c && k[row][col] == k[row'][col']
        ==> row == row' && col == col'
  {
    var k := KeyOrders(r, c, order);
    forall row, col, row', col' |
      0 <= row < r && 0 <= col < c && 0 <= row' < r && 0 <= col' < c && k[row][col] == k[row'][col']
      ensures row == row' && col == col'
    {
      CellUnique(row, order[col], row', order[col'], c);
    }
  }

  /** Some cell of the `r` by `c` table `k` holds slot `v`. */
  predicate HasCell(k: seq<seq<int>>, r: int, c: int, v: int)
    requires GridShape(r, c, k)
  {
    exists row, col :: 0 <= row < r && 0 <= col < c && k[row][col] == v
  }

  /** Every slot in 0 .. r*c-1 is held by some cell. */
  lemma KeyOrdersOnto(r: int, c: int, order: seq<int>)
    requires r >= 1 && IsPermutation(order, c)
    ensures var k := KeyOrders(r, c, order);
      forall v :: 0 <= v < r * c ==> HasCell(k, r, c, v)
  {
    var k := KeyOrders(r, c, order);
    PermutationCovers(order, c);
    forall v | 0 <= v < r * c
      ensures HasCell(k, r, c, v)
    {
      if c >= 1 {
        CellOf(v, r, c);
        assert v % c in order;
        var col :| 0 <= col < c && order[col] == v % c;
        assert k[v / c][col] == v;
      }
    }
  }

  /** Every candidate has a cell exactly when the grid has at least as many cells as candidates. */
  lemma CandidatesCoveredIff(n: int, order: seq<int>)
    requires n >= 1 && IsPermutation(order, ColumnCount(n))
    ensures var r, c := RowCount(n), ColumnCount(n); var k := KeyOrders(r, c, order);
      (forall v :: 0 <= v < n ==> HasCell(k, r, c, v))
      <==> n <= r * c
  {
    var r, c := RowCount(n), ColumnCount(n);
    var k := KeyOrders(r, c, order);
    KeyOrdersInRange(r, c, order);
    KeyOrdersOnto(r, c, order);
    if n > r * c {
      var v := n - 1;
      if HasCell(k, r, c, v) {
        assert false;
      }
    }
  }

  /** The focused cell of a new popup, bottom row at the focused column, holds candidate 0. */
  lemma InitialFocusIsFirstCandidate(n: int, focusColumn: int, order: seq<int>)
    requires n >= 1 && IsColumnOrder(order, ColumnCount(n), focusColumn)
    ensures KeyOrders(RowCount(n), ColumnCount(n), order)[0][focusColumn] == 0
  {
  }

  // ---- the focus step ----

  /** What `limitIndex(i, c)` is assumed to do (its code is not part of this model): clamp into 0 .. c-1. */
  function LimitIndex(i: int, c: int): (l: int)
    requires c >= 1
    ensures 0 <= l < c
    ensures 0 <= i < c ==> l == i
    ensures i < 0 ==> l == 0
    ensures i >= c ==> l == c - 1
  {
    if i < 0 then 0 else if i >= c then c - 1 else i
  }

  /** The dismissal test of `onChangeFocus`. */
  predicate Dismisses(r: int, c: int, newRow: int, newColumn: int) {
    newRow < -2 || newRow > r + 1 || newColumn < -2 || newColumn > c + 1
  }

  datatype FocusStep = FocusStep(dismiss: bool, focus: int)

  /**
   * `onChangeFocus` on the focused index: dismiss far outside the grid,
   * otherwise clamp into the grid and move onto the cell's candidate when
   * there is one (`keyCount` is the number of key views).
   */
  function ChangeFocus(r: int, c: int, k: seq<seq<int>>, keyCount: int, focused: int,
                       rowShift: int, column: int): (s: FocusStep)
    requires GridShape(r, c, k)
    ensures s.dismiss ==> s.focus == focused
  {
    var newRow := r - rowShift;
    if Dismisses(r, c, newRow, column) then FocusStep(true, focused)
    else
      var newFocus := k[LimitIndex(newRow, r)][LimitIndex(column, c)];
      if newFocus < keyCount then FocusStep(false, newFocus) else FocusStep(false, focused)
  }

  /** Dismissal happens exactly when the gesture is more than two cells outside the grid on some side. */
  lemma DismissIffFarOutside(r: int, c: int, k: seq<seq<int>>, keyCount: int, focused: int, rowShift: int, column: int)
    requires GridShape(r, c, k)
    ensures var newRow := r - rowShift;
      ChangeFocus(r, c, k, keyCount, focused, rowShift, column).dismiss
      <==> (newRow - LimitIndex(newRow, r) > 2 || LimitIndex(newRow, r) - newRow > 2
            || column - LimitIndex(column, c) > 2 || LimitIndex(column, c) - column > 2)
  {
  }

  /**
   * A gesture over a cell of the grid focuses that cell's candidate when
   * it has a key view, and otherwise keeps the focus; either way the popup
   * stays.
   */
  lemma GestureInsideGrid(r: int, c: int, k: seq<seq<int>>, keyCount: int, focused: int, row: int, col: int)
    requires GridShape(r, c, k) && 0 <= row < r && 0 <= col < c
    ensures ChangeFocus(r, c, k, keyCount, focused, r - row, col)
            == FocusStep(false, if k[row][col] < keyCount then k[row][col] else focused)
  {
  }

  /**
   * A gesture up to two cells outside the grid acts as the gesture over
   * the nearest cell on the grid's edge.
   */
  lemma NearOutsideIsEdge(r: int, c: int, k: seq<seq<int>>, keyCount: int, focused: int, rowShift: int, column: int)
    requires GridShape(r, c, k) && !Dismisses(r, c, r - rowShift, column)
    ensures ChangeFocus(r, c, k, keyCount, focused, rowShift, column)
            == ChangeFocus(r, c, k, keyCount, focused, r - LimitIndex(r - rowShift, r), LimitIndex(column, c))
  {
  }

  /** A cell's slot without a key view never takes the focus: the previous focus is retained and the popup stays. */
  lemma FocusRetainedWithoutKeyView(r: int, c: int, k: seq<seq<int>>, keyCount: int, focused: int, rowShift: int, column: int)
    requires GridShape(r, c, k) && !Dismisses(r, c, r - rowShift, column)
    requires k[LimitIndex(r - rowShift, r)][LimitIndex(column, c)] >= keyCount
    ensures ChangeFocus(r, c, k, keyCount, focused, rowShift, column) == FocusStep(false, focused)
  {
  }

  /**
   * Focus only ever moves onto a cell's candidate that has a key view;
   * hence a focus that had a key view keeps having one, and a focus inside
   * the grid's slots stays inside them.
   */
  lemma FocusOnlyOnCandidates(r: int, c: int, k: seq<seq<int>>, keyCount: int, focused: int, rowShift: int, column: int)
    requires GridShape(r, c, k)
    ensures var s := ChangeFocus(r, c, k, keyCount, focused, rowShift, column);
      && (s.focus != focused ==>
            !s.dismiss && s.focus < keyCount
            && HasCell(k, r, c, s.focus))
      && (focused < keyCount ==> s.focus < keyCount)
  {
    var s := ChangeFocus(r, c, k, keyCount, focused, rowShift, column);
    if s.focus != focused {
      var row, col := LimitIndex(r - rowShift, r), LimitIndex(column, c);
      assert k[row][col] == s.focus;
    }
  }

  /** Focus never leaves the grid's slots 0 .. r*c-1; with 13 candidates the 13th can never be focused. */
  lemma FocusStaysInGrid(n: int, order: seq<int>, keyCount: int, focused: int, rowShift: int, column: int)
    requires n >= 1 && IsPermutation(order, ColumnCount(n))
    requires 0 <= focused < RowCount(n) * ColumnCount(n)
    ensures var r, c := RowCount(n), ColumnCount(n);
      0 <= ChangeFocus(r, c, KeyOrders(r, c, order), keyCount, focused, rowShift, column).focus < r * c
    ensures n == 13 ==> ChangeFocus(RowCount(n), ColumnCount(n), KeyOrders(RowCount(n), ColumnCount(n), order),
                                    keyCount, focused, rowShift, column).focus != 12
  {
    var r, c := RowCount(n), ColumnCount(n);
    KeyOrdersInRange(r, c, order);
    ThirteenCandidates();
  }

  /**
   * Every candidate that has a cell and a key view is reached, without
   * dismissing, by the gesture over its cell, whatever was focused before.
   */
  lemma ReachCandidate(n: int, order: seq<int>, keyCount: int, focused: int, v: int)
      returns (rowShift: int, column: int)
    requires n >= 1 && IsPermutation(order, ColumnCount(n))
    requires 0 <= v < RowCount(n) * ColumnCount(n) && v < keyCount
    ensures var r, c := RowCount(n), ColumnCount(n);
      ChangeFocus(r, c, KeyOrders(r, c, order), keyCount, focused, rowShift, column) == FocusStep(false, v)
  {
    var r, c := RowCount(n), ColumnCount(n);
    var k := KeyOrders(r, c, order);
    KeyOrdersOnto(r, c, order);
    assert HasCell(k, r, c, v);
    var row, col :| 0 <= row < r && 0 <= col < c && k[row][col] == v;
    rowShift, column := r - row, col;
  }

  /**
   * Nine candidates with the trigger centred: 2 rows of 5, focus on the
   * middle column; moving up one row (`rowShift` 1) moves focus to the
   * candidate above, slot 5, without dismissing.
   */
  lemma NineCandidatesUpOneRow()
    ensures RowCount(9) == 2 && ColumnCount(9) == 5
    ensures var order := [3, 1, 0, 2, 4]; var k := KeyOrders(2, 5, order);
      && IsColumnOrder(order, 5, 2) && k[0][2] == 0
      && ChangeFocus(2, 5, k, 9, 0, 1, 2) == FocusStep(false, 5)
  {
  }
}
