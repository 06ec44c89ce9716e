/**
 * Scroll-offset arithmetic of the popup list. Offsets and heights are in pixels;
 * every row is `itemHeight` pixels tall, row `i` starts at `i * itemHeight` in
 * list coordinates, and the window shows `visible` rows.
 */
module Viewport {

  function Max(a: int, b: int): int { if a < b then b else a }

  function Min(a: int, b: int): int { if a < b then a else b }

  lemma MulLeq(a: int, b: int, c: int)
    requires a <= b && c >= 0
    ensures a * c <= b * c
  {
  }

  lemma MulLtCancel(a: int, b: int, c: int)
    requires c > 0 && a * c < b * c
    ensures a < b
  {
    if a >= b { MulLeq(b, a, c); }
  }

  /** The largest offset the list can be scrolled to: what lies below a full window. */
  function MaxScroll(count: int, visible: int, itemHeight: int): (m: int)
    requires itemHeight > 0
    ensures m >= 0
    ensures count <= visible ==> m == 0
    ensures count > visible ==> m == (count - visible) * itemHeight && m >= itemHeight
  {
    assert count * itemHeight - visible * itemHeight == (count - visible) * itemHeight;
    assert count > visible ==> (count - visible) * itemHeight >= itemHeight by {
      if count > visible { MulLeq(1, count - visible, itemHeight); }
    }
    assert count <= visible ==> (count - visible) * itemHeight <= 0 by {
      if count <= visible { MulLeq(count - visible, 0, itemHeight); }
    }
    Max(0, count * itemHeight - visible * itemHeight)
  }

  /** The scroll-state invariant: the offset lies between the top and the last full window. */
  predicate InRange(offset: int, count: int, visible: int, itemHeight: int)
    requires itemHeight > 0
  {
    0 <= offset <= MaxScroll(count, visible, itemHeight)
  }

  /** The offset after a wheel step of `delta` pixels (the clamp of the wheel handler). */
  function WheelOffset(offset: int, delta: int, count: int, visible: int, itemHeight: int): (r: int)
    requires itemHeight > 0
    ensures InRange(r, count, visible, itemHeight)
    ensures InRange(offset + delta, count, visible, itemHeight) ==> r == offset + delta
    ensures offset + delta < 0 ==> r == 0
    ensures offset + delta > MaxScroll(count, visible, itemHeight) ==> r == MaxScroll(count, visible, itemHeight)
  {
    assert count * itemHeight - visible * itemHeight == (count - visible) * itemHeight;
    Max(0, Min(offset + delta, count * itemHeight - visible * itemHeight))
  }

  /**
   * The first row shown when the popup opens: the selected row is put `visible / 2`
   * rows below the top (`visible >> 1`), then clamped below at 0 and only otherwise
   * above at `count - visible`. Because the lower clamp is tested first, a list shorter
   * than the window gives a negative first row.
   */
  function InitialOffsetIndex(selected: int, count: int, visible: int): (k: int)
    requires visible >= 1
    ensures count >= visible ==> 0 <= k <= count - visible
    ensures count >= visible && 0 <= selected < count ==> k <= selected < k + visible
    ensures 0 <= selected - visible / 2 <= count - visible ==> k == selected - visible / 2
    ensures count < visible && selected >= visible / 2 ==> k == count - visible < 0
    ensures selected - visible / 2 < 0 ==> k == 0
    ensures 0 <= selected - visible / 2 && selected - visible / 2 > count - visible ==> k == count - visible
  {
    var k := selected - visible / 2;
    if k < 0 then 0
    else if k > count - visible then count - visible
    else k
  }

  /** Opening on a list at least a window long leaves the offset in range and the selected row whole in the window. */
  lemma OpenOffsetShowsSelected(selected: int, count: int, visible: int, itemHeight: int)
    requires visible >= 1 && itemHeight > 0 && count >= visible
    ensures InRange(InitialOffsetIndex(selected, count, visible) * itemHeight, count, visible, itemHeight)
    ensures 0 <= selected < count ==>
      var offset := InitialOffsetIndex(selected, count, visible) * itemHeight;
      offset <= selected * itemHeight && (selected + 1) * itemHeight <= offset + visible * itemHeight
  {
    var k := InitialOffsetIndex(selected, count, visible);
    MulLeq(0, k, itemHeight);
    MulLeq(k, count - visible, itemHeight);
    if 0 <= selected < count {
      MulLeq(k, selected, itemHeight);
      MulLeq(selected + 1, k + visible, itemHeight);
    }
  }

  /** Opening on a list shorter than the window, with the selection in its lower part, gives a negative offset. */
  lemma OpenOffsetNegativeOnShortList(selected: int, count: int, visible: int, itemHeight: int)
    requires visible >= 1 && itemHeight > 0 && count < visible && selected >= visible / 2
    ensures InitialOffsetIndex(selected, count, visible) * itemHeight <= -itemHeight
  {
    MulLeq(count - visible, -1, itemHeight);
  }

  /** Whether row `index` lies whole inside the window that starts at `offset`. */
  predicate RowInWindow(offset: int, index: int, visible: int, itemHeight: int)
  {
    offset <= index * itemHeight && (index + 1) * itemHeight <= offset + visible * itemHeight
  }

  /**
   * The offset after `ensureVisible(index)`: an index outside the list changes nothing;
   * a row above the window is brought to its top; a row below is brought to its bottom.
   */
  function EnsureVisibleOffset(offset: int, index: int, count: int, visible: int, itemHeight: int): (r: int)
    ensures !(0 <= index < count) ==> r == offset
    ensures 0 <= index < count && visible >= 1 && itemHeight > 0 ==> RowInWindow(r, index, visible, itemHeight)
    ensures RowInWindow(offset, index, visible, itemHeight) ==> r == offset
  {
    if index < 0 || index >= count then offset
    else
      var itemTop := index * itemHeight;
      if offset > itemTop then
        assert visible >= 1 && itemHeight > 0 ==> itemHeight <= visible * itemHeight by {
          if visible >= 1 && itemHeight > 0 { MulLeq(1, visible, itemHeight); }
        }
        itemTop
      else
        var visibleHeight := visible * itemHeight;
        var itemBottom := itemTop + itemHeight;
        if offset + visibleHeight < itemBottom then itemBottom - visibleHeight else offset
  }

  /** `ensureVisible` moves the window the least distance that shows the whole row. */
  lemma EnsureVisibleMinimal(offset: int, index: int, count: int, visible: int, itemHeight: int, other: int)
    requires 0 <= index < count && RowInWindow(other, index, visible, itemHeight)
    ensures var r := EnsureVisibleOffset(offset, index, count, visible, itemHeight);
      (r <= offset ==> offset - r <= Max(offset - other, other - offset)) &&
      (r >= offset ==> r - offset <= Max(offset - other, other - offset))
  {
  }

  /** `ensureVisible` never clamps, yet keeps an in-range offset in range. */
  lemma EnsureVisiblePreservesRange(offset: int, index: int, count: int, visible: int, itemHeight: int)
    requires visible >= 1 && itemHeight > 0 && InRange(offset, count, visible, itemHeight)
    ensures InRange(EnsureVisibleOffset(offset, index, count, visible, itemHeight), count, visible, itemHeight)
  {
    if 0 <= index < count {
      MulLeq(0, index, itemHeight);
      MulLeq(index + 1, count, itemHeight);
      assert (count - visible) * itemHeight == count * itemHeight - visible * itemHeight;
    }
  }

  /** The first row drawn: `floor(offset / itemHeight)`. */
  function FirstVisible(offset: int, itemHeight: int): (start: int)
    requires itemHeight > 0
    ensures start * itemHeight <= offset < (start + 1) * itemHeight
  {
    offset / itemHeight
  }

  /** One past the last row drawn: a window and one extra, partly shown row, cut at the list's end. */
  function EndVisible(offset: int, itemHeight: int, visible: int, count: int): (end: int)
    requires itemHeight > 0
  {
    Min(FirstVisible(offset, itemHeight) + visible + 1, count)
  }

  /**
   * The drawn range misses no row that meets the window of `visible * itemHeight`
   * pixels, and never holds more than `visible + 1` rows, however long the list.
   */
  lemma VisibleRangeComplete(offset: int, itemHeight: int, visible: int, count: int, index: int)
    requires itemHeight > 0 && 0 <= index < count
    requires index * itemHeight - offset + itemHeight > 0
    requires index * itemHeight - offset < visible * itemHeight
    ensures FirstVisible(offset, itemHeight) <= index < EndVisible(offset, itemHeight, visible, count)
    ensures EndVisible(offset, itemHeight, visible, count) - FirstVisible(offset, itemHeight) <= visible + 1
  {
    var start := FirstVisible(offset, itemHeight);
    MulLtCancel(start, index + 1, itemHeight);
    assert index * itemHeight < (start + 1 + visible) * itemHeight;
    MulLtCancel(index, start + 1 + visible, itemHeight);
  }

  /** After `ensureVisible(i)` on a valid `i`, the drawn range contains `i`. */
  lemma EnsureVisibleThenDrawn(offset: int, index: int, count: int, visible: int, itemHeight: int)
    requires visible >= 1 && itemHeight > 0 && 0 <= index < count
    ensures var r := EnsureVisibleOffset(offset, index, count, visible, itemHeight);
      FirstVisible(r, itemHeight) <= index < EndVisible(r, itemHeight, visible, count)
  {
    var r := EnsureVisibleOffset(offset, index, count, visible, itemHeight);
    VisibleRangeComplete(r, itemHeight, visible, count, index);
  }

  /** The row under a click at canvas height `y`: `floor((offset + y) / itemHeight)`. */
  function ClickedRow(offset: int, y: int, itemHeight: int): (row: int)
    requires itemHeight > 0
    ensures row * itemHeight - offset <= y < row * itemHeight - offset + itemHeight
  {
    (offset + y) / itemHeight
  }

  /** A click lands on exactly the row that is drawn under it, at top `row * itemHeight - offset`. */
  lemma ClickSelectsDrawnRow(offset: int, y: int, itemHeight: int, row: int)
    requires itemHeight > 0
    requires row * itemHeight - offset <= y < row * itemHeight - offset + itemHeight
    ensures ClickedRow(offset, y, itemHeight) == row
  {
    var r := ClickedRow(offset, y, itemHeight);
    MulLtCancel(r, row + 1, itemHeight);
    MulLtCancel(row, r + 1, itemHeight);
  }

  /** The offset a press on the scrollbar track jumps to: the press's fraction of the canvas height. */
  function TrackJumpOffset(y: int, canvasHeight: int, count: int, visible: int, itemHeight: int): (r: int)
    requires canvasHeight > 0 && itemHeight > 0 && count > visible
    ensures InRange(r, count, visible, itemHeight)
    ensures y <= 0 ==> r == 0
    ensures y >= canvasHeight ==> r == MaxScroll(count, visible, itemHeight)
    ensures 0 <= y <= canvasHeight ==>
      r * canvasHeight <= y * MaxScroll(count, visible, itemHeight) < (r + 1) * canvasHeight
  {
    var maxScroll := (count - visible) * itemHeight;
    var q := (y * maxScroll) / canvasHeight;
    JumpFraction(y, canvasHeight, maxScroll);
    Max(0, Min(maxScroll, q))
  }

  /** A lower press on the track never jumps to a smaller offset. */
  lemma TrackJumpMonotone(y1: int, y2: int, canvasHeight: int, count: int, visible: int, itemHeight: int)
    requires canvasHeight > 0 && itemHeight > 0 && count > visible && y1 <= y2
    ensures TrackJumpOffset(y1, canvasHeight, count, visible, itemHeight)
         <= TrackJumpOffset(y2, canvasHeight, count, visible, itemHeight)
  {
    var m := (count - visible) * itemHeight;
    MulLeq(0, count - visible, itemHeight);
    MulLeq(y1, y2, m);
    DivMonotone(y1 * m, y2 * m, canvasHeight);
  }

  lemma JumpFraction(y: int, height: int, maxScroll: int)
    requires height > 0 && maxScroll >= 0
    ensures var q := (y * maxScroll) / height;
      (y <= 0 ==> q <= 0) &&
      (y >= height ==> q >= maxScroll) &&
      (0 <= y <= height ==> 0 <= q <= maxScroll && q * height <= y * maxScroll < (q + 1) * height)
  {
    var p := y * maxScroll;
    DivBounds(p, height);
    MulDivCancel(maxScroll, height);
    if y <= 0 {
      MulLeq(y, 0, maxScroll);
      DivMonotone(p, 0, height);
    }
    if y >= height {
      MulLeq(height, y, maxScroll);
      DivMonotone(height * maxScroll, p, height);
    }
    if 0 <= y <= height {
      MulLeq(y, height, maxScroll);
      MulLeq(0, y, maxScroll);
      DivMonotone(0, p, height);
      DivMonotone(p, height * maxScroll, height);
    }
  }

  lemma DivBounds(p: int, d: int)
    requires d > 0
    ensures (p / d) * d <= p < (p / d + 1) * d
  {
    assert p == d * (p / d) + p % d;
  }

  lemma MulDivCancel(a: int, d: int)
    requires d > 0
    ensures (d * a) / d == a
  {
    var q := (d * a) / d;
    DivBounds(d * a, d);
    MulLtCancel(q, a + 1, d);
    MulLtCancel(a, q + 1, d);
  }

  lemma DivMonotone(a: int, b: int, d: int)
    requires a <= b && d > 0
    ensures a / d <= b / d
  {
    if a / d > b / d {
      MulLeq(b / d + 1, a / d, d);
    }
  }
}
