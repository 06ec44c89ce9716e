/**
 * Scrollbar geometry and the drag arithmetic. The thumb's position and height are
 * fractional pixel values in the source, so they are `real` here; offsets stay `int`.
 */
module Scrollbar {
  import opened Viewport

  /** Minimum thumb height in pixels. */
  const MinThumbHeight: real := 15.0

  /** Width of the scrollbar band in pixels. */
  const BarWidth: int := 6

  /** The stored scrollbar metrics `{x, y, width, height}`; a zero `x` or `height` reads as unset. */
  datatype Thumb = Thumb(x: int, y: real, width: int, height: real)

  /** The metrics before anything was painted. */
  const InitialThumb: Thumb := Thumb(0, 0.0, BarWidth, 0.0)

  function RMax(a: real, b: real): real { if a < b then b else a }

  function RMin(a: real, b: real): real { if a < b then a else b }

  lemma RMulLeq(a: real, b: real, c: real)
    requires a <= b && c >= 0.0
    ensures a * c <= b * c
  {
  }

  /** `Math.round`: the nearest integer, a half rounded up. */
  function Round(v: real): (r: int)
    ensures r as real - 0.5 <= v < r as real + 0.5
  {
    (v + 0.5).Floor
  }

  lemma RoundMonotone(a: real, b: real)
    requires a <= b
    ensures Round(a) <= Round(b)
  {
  }

  /** Thumb height: the canvas height scaled by the shown fraction of the list, never under 15 px. */
  function ThumbHeight(canvasHeight: int, count: int, visible: int): (t: real)
    requires count > visible >= 1 && canvasHeight >= 0
    ensures t >= MinThumbHeight
    ensures t * count as real >= canvasHeight as real * visible as real
    ensures canvasHeight as real >= MinThumbHeight ==> t <= canvasHeight as real
    ensures t == MinThumbHeight || t * count as real == canvasHeight as real * visible as real
  {
    var f := visible as real / count as real;
    assert f < 1.0;
    RMulLeq(f, 1.0, canvasHeight as real);
    assert f * count as real == visible as real;
    assert canvasHeight as real * f * count as real == canvasHeight as real * visible as real;
    RMulLeq(canvasHeight as real * f, RMax(MinThumbHeight, canvasHeight as real * f), count as real);
    RMax(MinThumbHeight, canvasHeight as real * RMin(1.0, f))
  }

  /** Thumb top: the offset's fraction of the scrollable height, applied to the free track. */
  function ThumbY(offset: int, maxScroll: int, canvasHeight: int, thumbHeight: real): (y: real)
  {
    if maxScroll == 0 then 0.0
    else offset as real / maxScroll as real * (canvasHeight as real - thumbHeight)
  }

  /** The metrics `_renderCanvas` stores when the list is longer than the window. */
  function ThumbOf(offset: int, count: int, visible: int, itemHeight: int, canvasWidth: int, canvasHeight: int): (t: Thumb)
    requires count > visible >= 1 && itemHeight > 0 && canvasHeight >= 0
    ensures t.x == canvasWidth - BarWidth && t.width == BarWidth && t.height >= MinThumbHeight
  {
    var maxScroll := if visible < count then itemHeight * (count - visible) else 0;
    var height := ThumbHeight(canvasHeight, count, visible);
    Thumb(canvasWidth - BarWidth, ThumbY(offset, maxScroll, canvasHeight, height), BarWidth, height)
  }

  /**
   * The thumb travels the free track as the offset travels its range: top at offset 0,
   * bottom at the largest offset, in between otherwise, and never backwards.
   */
  lemma ThumbTracksOffset(offset: int, other: int, count: int, visible: int, itemHeight: int, canvasWidth: int, canvasHeight: int)
    requires count > visible >= 1 && itemHeight > 0 && canvasHeight as real >= MinThumbHeight
    requires InRange(offset, count, visible, itemHeight) && InRange(other, count, visible, itemHeight)
    ensures var t := ThumbOf(offset, count, visible, itemHeight, canvasWidth, canvasHeight);
      0.0 <= t.y <= canvasHeight as real - t.height &&
      (offset == 0 ==> t.y == 0.0) &&
      (offset == MaxScroll(count, visible, itemHeight) ==> t.y == canvasHeight as real - t.height) &&
      (offset <= other ==> t.y <= ThumbOf(other, count, visible, itemHeight, canvasWidth, canvasHeight).y)
  {
    var m := MaxScroll(count, visible, itemHeight);
    assert itemHeight * (count - visible) == m;
    var h := ThumbHeight(canvasHeight, count, visible);
    assert ThumbOf(offset, count, visible, itemHeight, canvasWidth, canvasHeight).y == ThumbY(offset, m, canvasHeight, h);
    assert ThumbOf(other, count, visible, itemHeight, canvasWidth, canvasHeight).y == ThumbY(other, m, canvasHeight, h);
    ThumbYOnTrack(offset, other, m, canvasHeight, h);
  }

  /** `ThumbY` over a non-empty scroll range places the thumb on the free track, in offset order. */
  lemma ThumbYOnTrack(offset: int, other: int, maxScroll: int, canvasHeight: int, thumbHeight: real)
    requires 0 <= offset <= maxScroll && 0 <= other <= maxScroll && maxScroll > 0
    requires thumbHeight <= canvasHeight as real
    ensures 0.0 <= ThumbY(offset, maxScroll, canvasHeight, thumbHeight) <= canvasHeight as real - thumbHeight
    ensures offset == 0 ==> ThumbY(offset, maxScroll, canvasHeight, thumbHeight) == 0.0
    ensures offset == maxScroll ==> ThumbY(offset, maxScroll, canvasHeight, thumbHeight) == canvasHeight as real - thumbHeight
    ensures offset <= other ==> ThumbY(offset, maxScroll, canvasHeight, thumbHeight) <= ThumbY(other, maxScroll, canvasHeight, thumbHeight)
  {
    var free := canvasHeight as real - thumbHeight;
    assert ThumbY(offset, maxScroll, canvasHeight, thumbHeight) == offset as real / maxScroll as real * free;
    assert ThumbY(other, maxScroll, canvasHeight, thumbHeight) == other as real / maxScroll as real * free;
    FractionScale(offset, maxScroll, free);
    if offset <= other {
      FractionMonotone(offset, other, maxScroll, free);
    }
  }

  lemma FractionScale(part: int, whole: int, length: real)
    requires 0 <= part <= whole && whole > 0 && length >= 0.0
    ensures 0.0 <= part as real / whole as real * length <= length
    ensures part == 0 ==> part as real / whole as real * length == 0.0
    ensures part == whole ==> part as real / whole as real * length == length
  {
    var f := part as real / whole as real;
    assert 0.0 <= f <= 1.0;
    RMulLeq(f, 1.0, length);
    RMulLeq(0.0, f, length);
  }

  lemma FractionMonotone(part: int, other: int, whole: int, length: real)
    requires part <= other && whole > 0 && length >= 0.0
    ensures part as real / whole as real * length <= other as real / whole as real * length
  {
    RDivLeq(part as real, other as real, whole as real);
    RMulLeq(part as real / whole as real, other as real / whole as real, length);
  }

  lemma RDivLeq(a: real, b: real, d: real)
    requires a <= b && d > 0.0
    ensures a / d <= b / d
  {
    var qa, qb := a / d, b / d;
    assert qa * d == a && qb * d == b;
    assert (qb - qa) * d == b - a;
  }

  /**
   * The thumb hit test of a press at canvas point (`x`, `y`), read from the stored
   * metrics: an unset `x` stands for `width - 6`, an unset height for the fresh one.
   * Any point right of the band's left edge counts, whatever its `x`.
   */
  function ThumbHit(bar: Thumb, canvasWidth: int, canvasHeight: int, count: int, visible: int, x: int, y: int): (hit: bool)
    requires count > visible >= 1
  {
    var left := (if bar.x != 0 then bar.x else canvasWidth - BarWidth) - 6;
    var top := bar.y;
    var height := if bar.height != 0.0 then bar.height
                  else RMax(MinThumbHeight, visible as real / count as real * canvasHeight as real);
    x >= left && y as real >= top && y as real <= top + height
  }

  /** With freshly painted metrics the hit test is exactly the thumb's rectangle, widened 6 px to the left. */
  lemma FreshThumbHit(offset: int, count: int, visible: int, itemHeight: int, canvasWidth: int, canvasHeight: int, x: int, y: int)
    requires count > visible >= 1 && itemHeight > 0 && canvasHeight >= 0
    ensures var t := ThumbOf(offset, count, visible, itemHeight, canvasWidth, canvasHeight);
      ThumbHit(t, canvasWidth, canvasHeight, count, visible, x, y) <==>
        x >= canvasWidth - 2 * BarWidth && t.y <= y as real <= t.y + t.height
  {
  }

  /** Before the first paint, the hit test sees a thumb at the top of the track with the fresh height. */
  lemma UnpaintedThumbHit(count: int, visible: int, itemHeight: int, canvasWidth: int, canvasHeight: int, x: int, y: int)
    requires count > visible >= 1 && itemHeight > 0 && canvasHeight >= 0
    ensures ThumbHit(InitialThumb, canvasWidth, canvasHeight, count, visible, x, y) ==
            ThumbHit(ThumbOf(0, count, visible, itemHeight, canvasWidth, canvasHeight), canvasWidth, canvasHeight, count, visible, x, y)
  {
    var f := visible as real / count as real;
    assert f * canvasHeight as real == canvasHeight as real * RMin(1.0, f);
  }

  /** The free track a drag runs along: canvas height less the stored (or minimum) thumb height, at least 1. */
  function DragTrack(bar: Thumb, canvasHeight: int): (t: real)
    ensures t >= 1.0
  {
    RMax(1.0, canvasHeight as real - (if bar.height != 0.0 then bar.height else MinThumbHeight))
  }

  /**
   * The offset while the thumb is dragged: the start offset plus the pointer's travel
   * scaled from the free track to the scrollable height, rounded, then clamped.
   */
  function DragOffset(y: int, startY: int, startOffset: int, bar: Thumb, canvasHeight: int,
                      count: int, visible: int, itemHeight: int): (r: int)
    requires itemHeight > 0
    ensures InRange(r, count, visible, itemHeight)
    ensures var target := DragTarget(y - startY, startOffset, DragTrack(bar, canvasHeight), MaxScroll(count, visible, itemHeight));
      (InRange(target, count, visible, itemHeight) ==> r == target) &&
      (target < 0 ==> r == 0) &&
      (target > MaxScroll(count, visible, itemHeight) ==> r == MaxScroll(count, visible, itemHeight))
  {
    var maxScroll := MaxScroll(count, visible, itemHeight);
    var deltaY := y - startY;
    var trackHeight := DragTrack(bar, canvasHeight);
    Max(0, Min(maxScroll, DragTarget(deltaY, startOffset, trackHeight, maxScroll)))
  }

  /** The unclamped offset of a drag: the start offset plus the rounded, scaled travel. */
  function DragTarget(deltaY: int, startOffset: int, trackHeight: real, maxScroll: int): (t: int)
    requires trackHeight > 0.0
    ensures var scaled := deltaY as real / trackHeight * maxScroll as real;
      t as real - 0.5 <= startOffset as real + scaled < t as real + 0.5
  {
    startOffset + Round(deltaY as real / trackHeight * maxScroll as real)
  }

  /** Dragging the thumb from the top by half the free track scrolls to the rounded middle of the list. */
  lemma DragHalfTrack(y: int, startY: int, bar: Thumb, canvasHeight: int, count: int, visible: int, itemHeight: int)
    requires itemHeight > 0 && 2.0 * (y - startY) as real == DragTrack(bar, canvasHeight)
    ensures var r := DragOffset(y, startY, 0, bar, canvasHeight, count, visible, itemHeight);
      var m := MaxScroll(count, visible, itemHeight) as real;
      r as real - 0.5 <= m / 2.0 < r as real + 0.5
  {
    var t := DragTrack(bar, canvasHeight);
    var m := MaxScroll(count, visible, itemHeight);
    assert (y - startY) as real / t == 0.5;
    var target := DragTarget(y - startY, 0, t, m);
    assert 0 <= target <= m;
  }

  /** Dragging further down never gives a smaller offset. */
  lemma DragMonotone(y1: int, y2: int, startY: int, startOffset: int, bar: Thumb, canvasHeight: int,
                     count: int, visible: int, itemHeight: int)
    requires itemHeight > 0 && y1 <= y2
    ensures DragOffset(y1, startY, startOffset, bar, canvasHeight, count, visible, itemHeight)
         <= DragOffset(y2, startY, startOffset, bar, canvasHeight, count, visible, itemHeight)
  {
    var m := MaxScroll(count, visible, itemHeight);
    var t := DragTrack(bar, canvasHeight);
    DragTargetMonotone(y1 - startY, y2 - startY, startOffset, t, m);
  }

  /** The unclamped drag offset grows with the pointer's travel. */
  lemma DragTargetMonotone(d1: int, d2: int, startOffset: int, track: real, maxScroll: int)
    requires d1 <= d2 && track > 0.0 && maxScroll >= 0
    ensures DragTarget(d1, startOffset, track, maxScroll) <= DragTarget(d2, startOffset, track, maxScroll)
  {
    var a := d1 as real / track;
    var b := d2 as real / track;
    RDivLeq(d1 as real, d2 as real, track);
    RMulLeq(a, b, maxScroll as real);
    RoundMonotone(a * maxScroll as real, b * maxScroll as real);
  }

  /** A drag that has not moved leaves an in-range start offset where it was. */
  lemma DragAtStart(startY: int, startOffset: int, bar: Thumb, canvasHeight: int, count: int, visible: int, itemHeight: int)
    requires itemHeight > 0 && InRange(startOffset, count, visible, itemHeight)
    ensures DragOffset(startY, startY, startOffset, bar, canvasHeight, count, visible, itemHeight) == startOffset
  {
    assert Round(0.0) == 0;
  }

  /** Dragging from the top across the whole free track reaches the last window. */
  lemma DragAcrossTrack(y: int, startY: int, bar: Thumb, canvasHeight: int, count: int, visible: int, itemHeight: int)
    requires itemHeight > 0 && (y - startY) as real >= DragTrack(bar, canvasHeight)
    ensures DragOffset(y, startY, 0, bar, canvasHeight, count, visible, itemHeight) == MaxScroll(count, visible, itemHeight)
  {
    var m := MaxScroll(count, visible, itemHeight);
    var t := DragTrack(bar, canvasHeight);
    var a := (y - startY) as real / t;
    assert a >= 1.0;
    RMulLeq(1.0, a, m as real);
    RoundMonotone(m as real, a * m as real);
    assert Round(m as real) == m;
  }
}
