/**
 * The row painter: which rows of the list reach the canvas, where, highlighted or not,
 * and with what text. Only the rows from `floor(offset / itemHeight)` on, a window and
 * one more, are visited, and only those meeting the canvas are painted.
 */
module Painting {
  import opened Viewport
  import opened Truncation

  /** What a paint reads: the list, the selection, the scroll state and the canvas size. */
  datatype Scene = Scene(items: seq<string>, selected: int, offset: int, itemHeight: int,
                         visible: int, width: int, height: int)

  /**
   * What a painted row shows: its (possibly truncated) label, whatever the paint
   * listener drew after taking the row over, or nothing because looking up the label
   * of a row before the list's start threw and ended the paint.
   */
  datatype RowContent = Text(text: string) | ByListener | Throws

  /** One painted row: its index, its top on the canvas, the highlight band of the selected row, its content. */
  datatype Row = Row(index: int, top: int, highlighted: bool, content: RowContent)

  /** The rows painted, top to bottom, and whether the paint ran to its end. */
  datatype Frame = Frame(rows: seq<Row>, complete: bool)

  /** Labels must fit 8 pixels inside the canvas width. */
  function TextWidth(s: Scene): int
  {
    s.width - 8
  }

  /** Where row `i` starts on the canvas. */
  function RowTop(s: Scene, i: int): int
  {
    i * s.itemHeight - s.offset
  }

  /** A row is skipped only when it lies wholly above the canvas or starts below its bottom edge. */
  predicate OnCanvas(s: Scene, i: int)
  {
    !(RowTop(s, i) + s.itemHeight < 0 || RowTop(s, i) > s.height)
  }

  /** The content the painter gives row `i`, which it has decided to paint. */
  function Content(s: Scene, i: int, measure: string -> int, handled: int -> bool): (c: RowContent)
    requires i < |s.items|
  {
    if handled(i) then ByListener
    else if i < 0 then Throws
    else Text(Truncate(s.items[i], TextWidth(s), measure))
  }

  /** Row `r` is painted as the painter paints its index. */
  predicate Drawn(s: Scene, r: Row, measure: string -> int, handled: int -> bool)
    requires r.index < |s.items|
  {
    r.top == RowTop(s, r.index) && OnCanvas(s, r.index) &&
    r.highlighted == (r.index == s.selected) &&
    r.content == Content(s, r.index, measure, handled)
  }

  function Indices(rows: seq<Row>): (r: seq<int>)
    ensures |r| == |rows| && forall k :: 0 <= k < |rows| ==> r[k] == rows[k].index
  {
    seq(|rows|, k requires 0 <= k < |rows| => rows[k].index)
  }

  function Prepend(r: Row, f: Frame): Frame
  {
    Frame([r] + f.rows, f.complete)
  }

  /**
   * The paint of rows `i` up to `end`: each visits one row, skips it when it misses the
   * canvas, and otherwise paints it; a row that throws ends the paint.
   */
  function PaintFrom(s: Scene, i: int, end: int, measure: string -> int, handled: int -> bool): (f: Frame)
    requires s.itemHeight > 0 && end <= |s.items|
    ensures |f.rows| <= Max(0, end - i)
    ensures !f.complete ==> |f.rows| > 0
    decreases end - i
  {
    if i >= end then Frame([], true)
    else if !OnCanvas(s, i) then PaintFrom(s, i + 1, end, measure, handled)
    else
      var row := Row(i, RowTop(s, i), i == s.selected, Content(s, i, measure, handled));
      if row.content.Throws? then Frame([row], false)
      else Prepend(row, PaintFrom(s, i + 1, end, measure, handled))
  }

  /** One step of the paint: the row visited first is skipped, ends the paint, or comes first. */
  lemma PaintFromStep(s: Scene, i: int, end: int, measure: string -> int, handled: int -> bool)
    requires s.itemHeight > 0 && end <= |s.items| && i < end
    ensures var row := Row(i, RowTop(s, i), i == s.selected, Content(s, i, measure, handled));
      PaintFrom(s, i, end, measure, handled) ==
        if !OnCanvas(s, i) then PaintFrom(s, i + 1, end, measure, handled)
        else if row.content.Throws? then Frame([row], false)
        else Prepend(row, PaintFrom(s, i + 1, end, measure, handled))
  {
  }

  /** Every painted row is painted as its index says, within the range visited. */
  lemma {:induction false} PaintFromRow(s: Scene, i: int, end: int, measure: string -> int, handled: int -> bool, k: int)
    requires s.itemHeight > 0 && end <= |s.items|
    requires 0 <= k < |PaintFrom(s, i, end, measure, handled).rows|
    ensures var r := PaintFrom(s, i, end, measure, handled).rows[k];
      i + k <= r.index < end && Drawn(s, r, measure, handled)
    decreases end - i
  {
    PaintFromStep(s, i, end, measure, handled);
    if !OnCanvas(s, i) {
      PaintFromRow(s, i + 1, end, measure, handled, k);
    } else if k > 0 {
      PaintFromRow(s, i + 1, end, measure, handled, k - 1);
    }
  }

  /** Painted rows come in increasing order of index. */
  lemma {:induction false} PaintFromOrdered(s: Scene, i: int, end: int, measure: string -> int, handled: int -> bool, k: int)
    requires s.itemHeight > 0 && end <= |s.items|
    requires 0 < k < |PaintFrom(s, i, end, measure, handled).rows|
    ensures PaintFrom(s, i, end, measure, handled).rows[k - 1].index < PaintFrom(s, i, end, measure, handled).rows[k].index
    decreases end - i
  {
    PaintFromStep(s, i, end, measure, handled);
    if !OnCanvas(s, i) {
      PaintFromOrdered(s, i + 1, end, measure, handled, k);
    } else if k == 1 {
      PaintFromRow(s, i + 1, end, measure, handled, 0);
    } else {
      PaintFromOrdered(s, i + 1, end, measure, handled, k - 1);
    }
  }

  /** A paint that does not run to its end stops at the row that threw, its last. */
  lemma {:induction false} PaintFromStopsAtThrow(s: Scene, i: int, end: int, measure: string -> int, handled: int -> bool, k: int)
    requires s.itemHeight > 0 && end <= |s.items|
    requires 0 <= k < |PaintFrom(s, i, end, measure, handled).rows|
    ensures var f := PaintFrom(s, i, end, measure, handled);
      f.rows[k].content.Throws? <==> !f.complete && k == |f.rows| - 1
    decreases end - i
  {
    PaintFromStep(s, i, end, measure, handled);
    if !OnCanvas(s, i) {
      PaintFromStopsAtThrow(s, i + 1, end, measure, handled, k);
    } else if !Content(s, i, measure, handled).Throws? && k > 0 {
      PaintFromStopsAtThrow(s, i + 1, end, measure, handled, k - 1);
    }
  }

  /** A paint that starts at a row of the list runs to its end. */
  lemma {:induction false} PaintFromListCompletes(s: Scene, i: int, end: int, measure: string -> int, handled: int -> bool)
    requires s.itemHeight > 0 && end <= |s.items| && i >= 0
    ensures PaintFrom(s, i, end, measure, handled).complete
    decreases end - i
  {
    if i < end {
      PaintFromListCompletes(s, i + 1, end, measure, handled);
    }
  }

  /** A paint that runs to its end paints every row of its range that meets the canvas. */
  lemma {:induction false} PaintFromCovers(s: Scene, i: int, end: int, measure: string -> int, handled: int -> bool, j: int)
    requires s.itemHeight > 0 && end <= |s.items| && i <= j < end && OnCanvas(s, j)
    requires PaintFrom(s, i, end, measure, handled).complete
    ensures j in Indices(PaintFrom(s, i, end, measure, handled).rows)
    decreases end - i
  {
    var f := PaintFrom(s, i, end, measure, handled);
    if j == i {
      assert f.rows[0].index == i;
    } else {
      var rest := PaintFrom(s, i + 1, end, measure, handled);
      PaintFromCovers(s, i + 1, end, measure, handled, j);
      if OnCanvas(s, i) {
        assert Indices(f.rows) == [i] + Indices(rest.rows);
      }
    }
  }

  /** The paint of the canvas: the visible range of the list. */
  function Paint(s: Scene, measure: string -> int, handled: int -> bool): (f: Frame)
    requires s.itemHeight > 0
  {
    PaintFrom(s, FirstVisible(s.offset, s.itemHeight), EndVisible(s.offset, s.itemHeight, s.visible, |s.items|), measure, handled)
  }

  /** However long the list, a paint touches at most a window and one more row. */
  lemma PaintIsBounded(s: Scene, measure: string -> int, handled: int -> bool)
    requires s.itemHeight > 0 && s.visible >= 0
    ensures |Paint(s, measure, handled).rows| <= s.visible + 1
  {
  }

  /** With a non-negative offset the paint runs to its end, painting every listed row that meets the canvas. */
  lemma PaintFromTopIsComplete(s: Scene, measure: string -> int, handled: int -> bool, j: int)
    requires s.itemHeight > 0 && s.offset >= 0
    requires FirstVisible(s.offset, s.itemHeight) <= j < EndVisible(s.offset, s.itemHeight, s.visible, |s.items|)
    requires OnCanvas(s, j)
    ensures Paint(s, measure, handled).complete
    ensures j in Indices(Paint(s, measure, handled).rows)
  {
    var first := FirstVisible(s.offset, s.itemHeight);
    var end := EndVisible(s.offset, s.itemHeight, s.visible, |s.items|);
    assert first >= 0 by {
      if first < 0 { MulLeq(first, -1, s.itemHeight); }
    }
    PaintFromListCompletes(s, first, end, measure, handled);
    PaintFromCovers(s, first, end, measure, handled, j);
  }

  /**
   * With a negative offset the first row visited lies before the list; unless the
   * paint listener takes it over, looking up its label throws and nothing else is painted.
   */
  lemma NegativeOffsetPaintThrows(s: Scene, measure: string -> int, handled: int -> bool)
    requires s.itemHeight > 0 && s.offset < 0 && s.height >= 0 && s.visible >= 0
    requires !handled(FirstVisible(s.offset, s.itemHeight))
    ensures var f := Paint(s, measure, handled);
      !f.complete && |f.rows| == 1 && f.rows[0].index == FirstVisible(s.offset, s.itemHeight) < 0
  {
    var first := FirstVisible(s.offset, s.itemHeight);
    assert first < 0 by {
      if first >= 0 { MulLeq(0, first, s.itemHeight); }
    }
    assert OnCanvas(s, first);
  }

  /**
   * Whether a paint runs to its end depends on the canvas height. Two rows above the list,
   * with the listener taking over only the first of them, a canvas shorter than a row
   * completes, and a canvas at least a row tall throws on the second.
   */
  lemma TallerCanvasCanThrow(s: Scene, measure: string -> int, handled: int -> bool)
    requires s.itemHeight > 0 && s.offset == -2 * s.itemHeight && s.visible >= 1
    requires handled(-2) && !handled(-1)
    ensures 0 <= s.height < s.itemHeight ==> Paint(s, measure, handled).complete
    ensures s.height >= s.itemHeight ==> !Paint(s, measure, handled).complete
  {
    var end := EndVisible(s.offset, s.itemHeight, s.visible, |s.items|);
    assert FirstVisible(s.offset, s.itemHeight) == -2 by {
      var first := FirstVisible(s.offset, s.itemHeight);
      if first < -2 { MulLeq(first + 1, -2, s.itemHeight); }
      if first > -2 { MulLeq(-1, first, s.itemHeight); }
    }
    assert RowTop(s, -2) == 0 && RowTop(s, -1) == s.itemHeight;
    assert end >= 0;
    PaintFromStep(s, -2, end, measure, handled);
    PaintFromStep(s, -1, end, measure, handled);
    PaintFromListCompletes(s, 0, end, measure, handled);
  }

  /** A frame whose first rows are already painted. */
  function Glue(rows: seq<Row>, f: Frame): Frame
  {
    Frame(rows + f.rows, f.complete)
  }

  lemma GlueStep(rows: seq<Row>, row: Row, rest: Frame)
    ensures Glue(rows, Prepend(row, rest)) == Glue(rows + [row], rest)
  {
    assert rows + ([row] + rest.rows) == (rows + [row]) + rest.rows;
  }

  /** The body of `_renderCanvas`'s loop for a row it paints and that does not throw. */
  method PaintRow(s: Scene, i: int, measure: string -> int, handled: int -> bool) returns (row: Row)
    requires s.itemHeight > 0 && i < |s.items| && (handled(i) || i >= 0)
    ensures row == Row(i, RowTop(s, i), i == s.selected, Content(s, i, measure, handled))
  {
    var top := i * s.itemHeight - s.offset;
    var highlighted := i == s.selected;
    if handled(i) {
      row := Row(i, top, highlighted, ByListener);
    } else {
      var text := TruncateLabel(s.items[i], s.width - 8, measure);
      row := Row(i, top, highlighted, Text(text));
    }
  }

  /** The loop of `_renderCanvas` over the visible range. */
  method PaintRows(s: Scene, measure: string -> int, handled: int -> bool) returns (f: Frame)
    requires s.itemHeight > 0
    ensures f == Paint(s, measure, handled)
  {
    var start := FirstVisible(s.offset, s.itemHeight);
    var end := EndVisible(s.offset, s.itemHeight, s.visible, |s.items|);
    var rows: seq<Row> := [];
    var i := start;
    while i < end
      invariant start <= i && (i <= end || i == start)
      invariant Paint(s, measure, handled) == Glue(rows, PaintFrom(s, i, end, measure, handled))
      decreases end - i
    {
      PaintFromStep(s, i, end, measure, handled);
      if OnCanvas(s, i) {
        if !handled(i) && i < 0 {
          // `items[i]` is undefined: `toString` throws and the paint stops here
          return Frame(rows + [Row(i, RowTop(s, i), i == s.selected, Throws)], false);
        }
        var row := PaintRow(s, i, measure, handled);
        GlueStep(rows, row, PaintFrom(s, i + 1, end, measure, handled));
        rows := rows + [row];
      }
      i := i + 1;
    }
    f := Frame(rows, true);
  }
}
