# virtual-select in Dafny

A model of `VirtualSelect`, the `<virtual-select>` custom element of `virtual-select.js`. The element is a
drop-down list. It keeps all of its options in memory but paints only the visible rows onto a canvas.
Under its DOM and canvas calls it runs a small engine, and that engine is what is modelled here:

- the **selection state machine**: the highlighted option (`selectedIndex`), the committed option
  (`lastSelectedIndex`), the open flag, the disabled flag, the vetoable commit, and the key, click and
  blur transitions;
- the **scroll arithmetic**: the centred offset on opening, wheel clamping, `ensureVisible`, the visible row
  range, mapping a click to a row, and the track-click jump;
- the **scrollbar**: the thumb's height and position, the hit test that starts a drag, the drag formula, and
  the deferred end of a drag;
- the **layout decisions** of `render`/`_renderCanvas`: the popup goes above or below the header at some
  height; each label is truncated with `"..."` to fit its row; the paint loop walks the visible rows.

Modules:

- `Viewport`: offsets and row indices.
- `Scrollbar`: thumb geometry in exact reals; `Math.round` is written out.
- `Layout`: popup placement.
- `Truncation`: label truncation. Specification functions come with the loop method that the paint
  loop runs.
- `Painting`: the paint loop. It produces a `Frame` of rows, and `PaintRows` is its loop.
- `Selection`: index validation, lookups, arrow and type-ahead targets, and the header text.
- `Widget`: the class `VirtualSelect`. Its fields are the element's fields. Its methods are the handlers,
  setters and internal operations, and each names what it modifies.

The page around the element reaches the model in two ways:

- **Parameters.** The veto from `beforechange` listeners is a `bool`. The computed font size is an
  `Option<nat>`. Pointer coordinates, relative to the canvas, are `int`s. Whether the element has focus
  and whether a key event is an auto-repeat are `bool`s.
- **Members.** `host` is the room above and below the element and its width. `measure` is the canvas's
  text width. `paintHandled` says whether a `paint` listener cancels the default drawing of row `i`.

A paint that reaches a row before the start of the list reads `items[-k].toString()`, which throws in
the element. The model records that as a `Frame` whose `complete` is false: painting stops there, and so
does the handler that asked for it. A negative offset starts with `showDropDown` on a list shorter than
the window, when the selected row is at or past the middle of the window (`OpenOffsetNegativeOnShortList`).
The wheel and the scrollbar always make it non-negative (`WheelOffset`, `TrackJumpOffset` and
`DragOffset` are never negative). Reopening recomputes it, and it is negative again on a short list.
`ensureVisible` keeps it negative or makes it non-negative, depending on the row. The `items` setter
leaves it as it is, also while the list grows past the window. So a list of any length can reach a
paint that throws
(`NegativeOffsetPaintThrows`). Whether a paint throws also depends on the canvas height
(`TallerCanvasCanThrow`).

## Model

| member | source | states |
|---|---|---|
| Viewport.MaxScroll | virtual-select.js:343-345 | The furthest scroll is 0 for a list that fits the window. Otherwise it is the hidden rows times the row height, which is at least one row. |
| Viewport.WheelOffset | virtual-select.js:276-283 | A wheel scroll always lands in `[0, MaxScroll]`. It moves by exactly the wheel's delta when that stays in range, and stops at 0 or at `MaxScroll` otherwise. |
| Viewport.InitialOffsetIndex | virtual-select.js:369-375 | The top row on opening. For a list at least as long as the window, it lies in `[0, len - visible]`, the selected row is inside the window, and the window is centred on that row whenever centring fits. For a shorter list with the selection at or past half the window, it is `len - visible`, which is negative. A selection less than half a window down, including none, opens at row 0; one too close to the end for centring opens at `len - visible`. |
| Viewport.OpenOffsetShowsSelected | virtual-select.js:369-375 | For a list at least as long as the window, the opening offset is in range and the selected row is whole in the window. |
| Viewport.OpenOffsetNegativeOnShortList | virtual-select.js:369-375 | For a list shorter than the window, with the selection at or past half the window, the opening offset is at least one row height below 0. |
| Viewport.EnsureVisibleOffset | virtual-select.js:585-598 | `ensureVisible` leaves the offset alone for an index outside the list. Otherwise the row ends up whole inside the window, and an offset that already showed it whole is unchanged. |
| Viewport.EnsureVisibleMinimal | virtual-select.js:590-598 | No offset that shows the row whole is closer to the old offset than the one `ensureVisible` picks. |
| Viewport.EnsureVisiblePreservesRange | virtual-select.js:585-598 | Without clamping, `ensureVisible` keeps an in-range offset in `[0, MaxScroll]`. |
| Viewport.EndVisible | virtual-select.js:495 | One past the last row visited: a window and one more row after the first visible row, cut at the end of the list. Its use is stated by `VisibleRangeComplete`. |
| Viewport.FirstVisible | virtual-select.js:494 | The first painted row is the one whose band contains the offset. |
| Viewport.VisibleRangeComplete | virtual-select.js:494-503 | Every row that meets the window lies in `[startIndex, endIndex)`, and the range holds at most `visible + 1` rows. |
| Viewport.EnsureVisibleThenDrawn | virtual-select.js:494-495 | After `ensureVisible(i)`, row `i` lies in the painted index range. |
| Viewport.ClickedRow | virtual-select.js:302 | The row a click selects is the row whose painted band contains the click's y. |
| Viewport.ClickSelectsDrawnRow | virtual-select.js:302 | A click inside a row's painted band selects that row. |
| Viewport.TrackJumpOffset | virtual-select.js:294-299 | A click on the scrollbar track lands in `[0, MaxScroll]`. It gives 0 at the top, `MaxScroll` at or below the bottom, and in between the floor of the same fraction of `MaxScroll` as y is of the canvas height. |
| Viewport.TrackJumpMonotone | virtual-select.js:294-299 | A lower click on the track never scrolls less far. |
| Scrollbar.Round | virtual-select.js:348 | `Math.round` is within one half of its argument, and halves round up. |
| Scrollbar.RoundMonotone | virtual-select.js:348 | Rounding preserves order. |
| Scrollbar.ThumbHeight | virtual-select.js:564-567 | The thumb's height is the larger of 15 pixels and the visible fraction of the canvas: it is at least both, and equal to one of them. On a canvas of at least 15 pixels it never exceeds the canvas. |
| Scrollbar.ThumbOf | virtual-select.js:558-578 | The stored thumb sits 6 pixels from the right edge, is 6 pixels wide and is at least 15 pixels tall. |
| Scrollbar.ThumbTracksOffset | virtual-select.js:570-572 | For offsets in range, the thumb stays on the track. It is at the top at offset 0 and at the bottom at `MaxScroll`, and it moves down as the offset grows. |
| Scrollbar.ThumbY | virtual-select.js:570-572 | The thumb top: 0 when the list cannot scroll, otherwise the offset's share of `MaxScroll` applied to the free track. `ThumbYOnTrack` states its bounds, ends and monotonicity. |
| Scrollbar.ThumbYOnTrack | virtual-select.js:570-572 | The thumb's top lies between 0 and the free track. It is at 0 for offset 0 and at the free track for the largest offset, and it grows with the offset. |
| Scrollbar.ThumbHit | virtual-select.js:318-324 | The press test of the thumb, with the stored metrics or their fallbacks when unset. `FreshThumbHit` and `UnpaintedThumbHit` state what it accepts. |
| Scrollbar.FreshThumbHit | virtual-select.js:318-324 | Against a painted thumb, a press hits it exactly when it falls in the 12-pixel band at the right edge and between the thumb's top and bottom. |
| Scrollbar.UnpaintedThumbHit | virtual-select.js:318-322 | Before any thumb was painted, the fallbacks in the hit test give the same answer as a thumb painted at offset 0. |
| Scrollbar.DragTrack | virtual-select.js:347 | The drag track is at least one pixel, so the drag ratio is always defined. |
| Scrollbar.DragOffset | virtual-select.js:341-349 | A drag always lands in `[0, MaxScroll]`. It is `DragTarget`, the start offset plus the rounded travel scaled from the free track to `MaxScroll`, when that is in range, and 0 or `MaxScroll` when it falls below or above. |
| Scrollbar.DragTarget | virtual-select.js:348 | Before clamping, a drag's offset is within one half of the start offset plus the pointer's travel times `MaxScroll` over the free track. |
| Scrollbar.DragHalfTrack | virtual-select.js:346-349 | Dragging from offset 0 by half the free track scrolls to `MaxScroll / 2`, rounded. |
| Scrollbar.DragMonotone | virtual-select.js:346-349 | For a fixed start, dragging further down never scrolls less far. |
| Scrollbar.DragTargetMonotone | virtual-select.js:346-348 | Before clamping, a longer pointer travel never gives a smaller offset. |
| Scrollbar.DragAtStart | virtual-select.js:346-349 | A drag back to its starting point restores the starting offset. |
| Scrollbar.DragAcrossTrack | virtual-select.js:346-349 | Dragging the whole track from the top scrolls to `MaxScroll`. |
| Layout.DesiredHeight | virtual-select.js:436 | The wanted popup height is at least one row and at most the window. It is the whole list for a list that fits, the whole window for a list at least as long, and one row for an empty list. |
| Layout.Place | virtual-select.js:441-458 | The popup goes above if and only if the desired height does not fit below and either fits above or above is roomier. At the desired height when either side fits. Otherwise on the roomier side, with a tie going below, at that side's room but never under 20 pixels. |
| Layout.PlacementPositive | virtual-select.js:436-458 | An open popup's canvas is always at least a pixel tall. |
| Truncation.CoarseLength | virtual-select.js:533-535 | The coarse cut leaves a text of at most 100 characters alone. It stops only at 100 characters or fewer, or at a text that fits. The last cut it made was of a text still too wide. |
| Truncation.CoarseCutsOnlyTooWide | virtual-select.js:533-535 | Every length the coarse loop passed on its way down, in steps of 50, was over 100 characters and still too wide, so it stops at the first step that fits or reaches 100. |
| Truncation.CoarseCutsWholeBlocks | virtual-select.js:533-535 | The coarse cut removes whole blocks of 50 characters. |
| Truncation.FineLength | virtual-select.js:540-542 | The fine trim stops at the longest prefix, no longer than where it started, that fits with `"..."`, or at one character; it never goes below one character unless it started at none. |
| Truncation.RestoredLength | virtual-select.js:536-538 | The length after undoing the last coarse cut: 50 characters more than the coarse cut, as far as the label goes. |
| Truncation.KeptLength | virtual-select.js:536-542 | A truncated label keeps strictly fewer characters than the label. |
| Truncation.Truncate | virtual-select.js:529-544 | The text drawn for a label: the label itself when it fits, else the kept prefix and `"..."`. `TruncateKeepsFitting`, `TruncateShape`, `TruncateFineIsTight` and `TruncateKeepsLongestFit` state what it promises. |
| Truncation.TruncateKeepsFitting | virtual-select.js:531 | A label that fits is drawn unchanged. |
| Truncation.TruncateShape | virtual-select.js:531-543 | A label that does not fit is drawn as a strict prefix followed by `"..."`, and that text fits or the prefix has at most one character. |
| Truncation.TruncateFineIsTight | virtual-select.js:536-542 | Within the restored block, no longer prefix fits with `"..."`. |
| Truncation.TruncateKeepsLongestFit | virtual-select.js:529-544 | When the width of a text grows with its length, the kept prefix is the longest one of the whole label that fits with `"..."`. |
| Truncation.CoarseCut | virtual-select.js:533-535 | The coarse `while` loop ends on the prefix of length `CoarseLength`. |
| Truncation.FineTrim | virtual-select.js:540-542 | The fine loop ends on the prefix of length `FineLength`. |
| Truncation.TruncateLabel | virtual-select.js:529-544 | The coarse `while`, the restoring slice and the fine `do`-`while` compute exactly `Truncate`. |
| Painting.Paint | virtual-select.js:494-555 | The paint of the canvas: the rows from `FirstVisible` to `EndVisible`. The `PaintFrom` lemmas describe its rows. |
| Painting.Content | virtual-select.js:515-526 | A painted row is drawn by the listener when it cancels the `paint` event. Otherwise a row before the list throws, and any other row shows its truncated label. |
| Painting.PaintFrom | virtual-select.js:500-555 | The paint loop paints at most one row per index in its range, and a paint that stops early has painted at least one row. |
| Painting.PaintFromRow | virtual-select.js:500-526 | Every painted row comes from the range. It sits at `i * itemHeight - offset`, meets the canvas, is highlighted exactly when it is the selected row, and shows either the listener's drawing or the truncated label. |
| Painting.PaintFromOrdered | virtual-select.js:500 | Rows are painted in increasing index order. |
| Painting.PaintFromStopsAtThrow | virtual-select.js:526 | A row that throws is painted last, and only an incomplete paint has one. |
| Painting.PaintFromListCompletes | virtual-select.js:500-555 | A paint over rows of the list, with no index before 0, always completes. |
| Painting.PaintFromCovers | virtual-select.js:500-503 | A completed paint paints every row of its range that meets the canvas. |
| Painting.PaintIsBounded | virtual-select.js:494-500 | A paint never paints more than `visible + 1` rows. |
| Painting.PaintFromTopIsComplete | virtual-select.js:494-555 | At a non-negative offset the paint completes and paints every row in the visible range that meets the canvas. |
| Painting.TallerCanvasCanThrow | virtual-select.js:493-526 | The same state can paint completely on a canvas shorter than a row and throw on a taller one, when the listener takes over only the first row before the list. |
| Painting.NegativeOffsetPaintThrows | virtual-select.js:494-526 | At a negative offset, unless a listener draws the first row, the paint stops at that row, before the start of the list. |
| Painting.PaintRow | virtual-select.js:502-547 | The body of the paint loop: one row, at its top, with its highlight and content. |
| Painting.PaintRows | virtual-select.js:494-555 | The `for` loop over the visible range computes exactly `Paint`. |
| Selection.ValidatedIndex | virtual-select.js:616-622 | The stored index is the value when it names an item, and -1 otherwise. |
| Selection.IndexOf | virtual-select.js:631 | `indexOf` gives -1 exactly when the value is absent; otherwise it gives the first position holding it. |
| Selection.ValueAt | virtual-select.js:626-628 | The `selectedValue` getter gives the item at the index, or nothing for -1. |
| Selection.SelectedValueRoundTrip | virtual-select.js:626-632 | Setting `selectedValue` and reading it back gives the value when it is an item, and nothing otherwise. |
| Selection.NextIndex | virtual-select.js:214 | ArrowDown's target is in the list. It is one row further, or the last row when already there. |
| Selection.PreviousIndex | virtual-select.js:224 | ArrowUp's target is in the list. It is one row back, or the first row when already there or when nothing is selected. |
| Selection.ArrowsUndoEachOther | virtual-select.js:214-224 | Down then up, or up then down, returns to an inner row. |
| Selection.TypeAheadIndex | virtual-select.js:264-265 | Type-ahead picks the first item whose first character, lower-cased, equals the lower-cased key, or -1 when none does. |
| Selection.TypeAheadNeedsOneCharacter | virtual-select.js:264-265 | A key name longer than one character, such as `F1`, matches no item. |
| Selection.Header | virtual-select.js:419-430 | The header shows the selected item if and only if one is selected and it is not empty; otherwise it shows the placeholder. |
| Widget.ItemHeightFor | virtual-select.js:366-368 | The row height on opening is at least 12 pixels. |
| Widget.VirtualSelect.constructor | virtual-select.js:18-35 | A new element is empty, closed and has nothing selected. It has ten visible rows, an unset thumb and the default 300 by 150 canvas. |
| Widget.VirtualSelect.SelectedValue | virtual-select.js:626-628 | The getter gives the selected item, or nothing. |
| Widget.VirtualSelect.RenderCanvas | virtual-select.js:483-583 | The canvas shows the paint of the current state. The thumb is refreshed only when that paint completed over a list longer than the window. |
| Widget.VirtualSelect.Render | virtual-select.js:416-481 | An open list is placed by `Layout.Place`, sized to the popup width and repainted. A closed list's canvas is untouched. |
| Widget.VirtualSelect.ShowDropDown | virtual-select.js:359-377 | Opening does nothing when the list is already open or disabled. Otherwise it sets the row height and the centred offset and renders, leaving both indices alone. For a list at least as long as the window, the offset is then in range and the selected row is in view. |
| Widget.VirtualSelect.CloseDropDown | virtual-select.js:379-387 | Closing does nothing when already closed. Otherwise the list closes, reverting the highlight to the committed option unless asked to keep it. The committed option, the offset, the row height and the canvas are untouched. |
| Widget.VirtualSelect.ToggleDropDown | virtual-select.js:389-395 | An open list closes as `CloseDropDown(false)` does: the highlight reverts, and the committed option, offset and row height stay. A closed one opens as `ShowDropDown` does: both indices stay. |
| Widget.VirtualSelect.SelectItem | virtual-select.js:397-414 | A veto changes nothing. Otherwise the index becomes both highlighted and committed and the list is closed, without scrolling or changing the canvas. `change` fires exactly when the index differs from the previously committed one. |
| Widget.VirtualSelect.SetSelectedIndex | virtual-select.js:616-624 | Stores the validated index as both the highlighted and the committed one, then renders. |
| Widget.VirtualSelect.SetItems | virtual-select.js:607-610 | Replaces the list and re-validates the current index against it. |
| Widget.VirtualSelect.SetSelectedValue | virtual-select.js:630-632 | Selects the first item equal to the value, or nothing. Reading `SelectedValue` back gives the value exactly when it is an item. |
| Widget.VirtualSelect.SetPlaceholder | virtual-select.js:638-644 | A new placeholder is stored and rendered; the same one changes nothing. |
| Widget.VirtualSelect.SetDisabled | virtual-select.js:650-662 | A new disabled flag is stored and rendered; the same one changes nothing. |
| Widget.VirtualSelect.HandleBlur | virtual-select.js:186-191 | Losing focus makes the highlight the committed option, rendering only if they differed. The open flag, the committed option, the offset and the row height stay. |
| Widget.VirtualSelect.HandleClick | virtual-select.js:193-197 | A click on the header toggles the list, with the effect `ToggleDropDown` states; any other click changes nothing. |
| Widget.VirtualSelect.HandleDocumentMouseDown | virtual-select.js:199-205 | A press outside an open element closes it without keeping the highlight; any other press changes nothing. |
| Widget.VirtualSelect.EnsureVisible | virtual-select.js:585-601 | The offset becomes `EnsureVisibleOffset`. An open list is repainted for a valid index, and the result says whether that paint completed. |
| Widget.VirtualSelect.MoveHighlight | virtual-select.js:214-230 | Moves the highlight by keyboard; the row height and the open flag stay. An open list scrolls the target into view and repaints on its old canvas without committing. If that paint completes, the list is laid out and repainted; if not, the layout and the thumb are the old ones. The thumb changes only where a completed paint of a list longer than the window stores one. A closed list commits the target under the veto, as `SelectItem` does, and its canvas is untouched. |
| Widget.VirtualSelect.HandleKeyDown | virtual-select.js:207-274 | Without focus, nothing happens. Arrows on an empty list do nothing; otherwise they move to `NextIndex`/`PreviousIndex` as `MoveHighlight` does. Enter commits as `SelectItem` does when open, and opens as `ShowDropDown` does when closed. Space opens a closed list. Tab and Escape close an open list as `CloseDropDown(false)` does. Escape on a closed list blurs, as `HandleBlur` does. Any other key, on an open list and not repeated, highlights `TypeAheadIndex` when it finds one; otherwise nothing changes. |
| Widget.VirtualSelect.HandleScroll | virtual-select.js:276-283 | The offset becomes `WheelOffset` of the wheel's delta, and the canvas is repainted. |
| Widget.VirtualSelect.OnScrollbarBand | virtual-select.js:292-294 | A click is on the scrollbar band when the list is longer than the window and the click lies within the thumb's width plus 6 pixels of the right edge. |
| Widget.VirtualSelect.HandleCanvasClick | virtual-select.js:285-306 | It is ignored when the list is closed or a drag is under way. In the scrollbar band of a scrolling list, the offset becomes `TrackJumpOffset` and the canvas is repainted at its old size and side, with nothing selected. Otherwise a click on a row commits that row under the veto as `SelectItem` does, without scrolling, and a click below the last row does nothing. |
| Widget.VirtualSelect.HandleCanvasMouseDown | virtual-select.js:308-333 | A press that hits the thumb of an open, scrolling list starts a drag, recording the pointer and the offset. Any other press changes nothing. |
| Widget.VirtualSelect.HandleDocumentMouseMove | virtual-select.js:335-351 | During a drag the offset becomes `DragOffset` and the canvas is repainted. Otherwise nothing changes. |
| Widget.VirtualSelect.HandleDocumentMouseUp | virtual-select.js:353-357 | A release schedules the end of the drag exactly when one is under way. |
| Widget.VirtualSelect.EndDrag | virtual-select.js:355 | The deferred callback ends the drag. |

## Left out

- The shadow DOM template, CSS, class-name toggling and the header's `span` and arrow icon. The header
  text is `Selection.Header`; it is not stored in the class.
- `customElements.define`, `observedAttributes`, `attributeChangedCallback` and the connect and
  disconnect listener wiring. The handlers are methods that the host calls. The `placeholder`
  attribute's direct write to `_placeholder`, without a render, is not modelled.
- The canvas drawing calls, `getContext`, `getBoundingClientRect`, `window.innerHeight`, `offsetWidth` and
  `style`. Coordinates are integers relative to the canvas, and the room around the host is the `host`
  field. The patch element's width is not modelled.
- `getComputedStyle` is replaced by the `fontSize` parameter, a whole number of pixels. Fractional font
  sizes are not modelled.
- `dispatchEvent` itself:
  - `beforechange` is the `allowed` parameter.
  - `change` is the `changed` result.
  - `paint` is the fixed `paintHandled` function of the row index. A listener that draws, or that
    changes the element while it runs, is not modelled.
  - `beforeopen` is dropped, because its result is ignored. Its listeners' side effects, and the
    `_noRender` flag that only matters to them, are not modelled.
- `setTimeout` in `_handleDocumentMouseUp`. The deferred callback is the separate `EndDrag`, which the host
  calls after the click that follows the release.
- `document.activeElement` is the `focused` parameter. `event.repeat` is the `repeat` parameter.
  `preventDefault` is not modelled. `blur()` on Escape is modelled as the synchronous `HandleBlur` it
  triggers.
- Items are strings. Non-string items and their `toString` are not modelled. Case folding in type-ahead
  covers ASCII letters only; strings are sequences of characters, not UTF-16 code units.
- Widget.VirtualSelect.Valid: requires `visibleItems >= 1`, because the host assigns `visibleItems` freely.
  The 32-bit `>> 1` is modelled as `/ 2` on non-negative values.
- Widget.VirtualSelect.HandleScroll: requires a row height, which the element has once the list has first
  opened. The wheel only reaches the canvas while the canvas is shown.
- `items` is a value. The getter and setter of `items` hand out and keep the caller's array itself, so a
  host that changes that array in place (`el.items.pop()`) changes the list without re-validating the
  selection, and the selected index can then point past the end. The model has no such path, and the
  bound on the indices in `Valid` relies on that.
- `_scrollbar` is modelled as a value that is replaced, not an object mutated in place. Nothing else
  holds a reference to it.
- Floating point: thumb geometry uses exact reals, and offsets are integers. The track jump
  `floor(y / H * M)` is modelled as `floor(y * M / H)`.
- The popup height can exceed the available space, because it never goes under 20 pixels. The opening
  offset can be negative for a list shorter than the window. Both are modelled as the code behaves.
- Widget.VirtualSelect.SetSelectedIndex and Selection.ValidatedIndex take an `int`. The setter also
  accepts and stores a fractional number inside the list's bounds, such as 1.5. After that,
  `selectedValue` is `undefined` and no row is highlighted. Non-integer indices are not modelled.
