/**
 * The `VirtualSelect` element: its state and the handlers that change it. The page around
 * it (event wiring, focus, the host's position, the font, listeners) reaches the model as
 * parameters and as the `host`, `measure` and `paintHandled` members.
 */
module Widget {
  import opened Wrappers
  import opened Viewport
  import opened Scrollbar
  import opened Layout
  import opened Painting
  import opened Selection

  /** The host element's place on the page: room above and below it in the window, and its own width. */
  datatype HostGeometry = HostGeometry(spaceAbove: int, spaceBelow: int, offsetWidth: int)

  /** The row height taken on opening: the computed font size plus 12 pixels, or 26 with no font size. */
  function ItemHeightFor(fontSize: Option<nat>): (h: int)
    ensures h >= 12
  {
    match fontSize
    case Some(px) => px + 12
    case None => 26
  }

  /** The keys with a case of their own; every other key is a type-ahead key. */
  predicate NamedKey(key: string)
  {
    key == "ArrowDown" || key == "ArrowUp" || key == "Enter" || key == " " || key == "Tab" || key == "Escape"
  }

  class VirtualSelect {
    /** The options, in display order. */
    var items: seq<string>
    /** The highlighted option, or -1. */
    var selectedIndex: int
    /** The committed option, or -1: the one the last `change` event announced. */
    var lastSelectedIndex: int
    var placeholder: string
    var disabled: bool
    var isOpen: bool
    /** Rows in the popup window, and the popup's fixed width (0 means the host's width). */
    var visibleItems: int
    var dropDownWidth: int
    /** Row height in pixels; 0 until the list first opens. */
    var itemHeight: int
    /** Pixels of the list scrolled above the top of the canvas. */
    var scrollOffset: int
    /** A scrollbar drag: whether one is under way, the pointer's start and the offset then. */
    var draggingScrollbar: bool
    var dragStartY: int
    var dragStartOffset: int
    /** The thumb as last painted. */
    var scrollbar: Thumb
    /** The canvas: its size, its side of the header, and what was last painted on it. */
    var canvasWidth: int
    var canvasHeight: int
    var placedAbove: bool
    var frame: Frame
    /** Where the host sits on the page; the page updates it. */
    var host: HostGeometry
    /** The canvas's text measure, and whether a `paint` listener draws row i itself. */
    const measure: string -> int
    const paintHandled: int -> bool

    /** Everything the handlers rely on except the selection indices. */
    ghost predicate Consistent()
      reads this
    {
      visibleItems >= 1 && itemHeight >= 0 && canvasHeight > 0 &&
      (itemHeight == 0 ==> scrollOffset == 0 && !isOpen && !draggingScrollbar)
    }

    ghost predicate Valid()
      reads this
    {
      Consistent() && -1 <= selectedIndex < |items| && -1 <= lastSelectedIndex < |items|
    }

    /** A new element: empty, closed, nothing selected, ten visible rows and a 300 by 150 canvas. */
    constructor (placeholder: string, disabled: bool, host: HostGeometry,
                 measure: string -> int, paintHandled: int -> bool)
      ensures Valid()
      ensures items == [] && selectedIndex == -1 && lastSelectedIndex == -1
      ensures this.placeholder == placeholder && this.disabled == disabled && !isOpen
      ensures visibleItems == 10 && dropDownWidth == 0 && itemHeight == 0 && scrollOffset == 0
      ensures !draggingScrollbar && dragStartY == 0 && dragStartOffset == 0 && scrollbar == InitialThumb
      ensures canvasWidth == 300 && canvasHeight == 150 && frame == Frame([], true)
      ensures this.host == host && this.measure == measure && this.paintHandled == paintHandled
    {
      items := [];
      selectedIndex := -1;
      lastSelectedIndex := -1;
      this.placeholder := placeholder;
      this.disabled := disabled;
      isOpen := false;
      visibleItems := 10;
      dropDownWidth := 0;
      itemHeight := 0;
      scrollOffset := 0;
      draggingScrollbar := false;
      dragStartY := 0;
      dragStartOffset := 0;
      scrollbar := InitialThumb;
      canvasWidth := 300;
      canvasHeight := 150;
      placedAbove := false;
      frame := Frame([], true);
      this.host := host;
      this.measure := measure;
      this.paintHandled := paintHandled;
    }

    function CurrentScene(): Scene
      reads this
    {
      Scene(items, selectedIndex, scrollOffset, itemHeight, visibleItems, canvasWidth, canvasHeight)
    }

    /** Where the open popup goes and how tall it is, for the current list and host. */
    function PopupPlacement(): Placement
      reads this`itemHeight, this`items, this`visibleItems, this`host
      requires itemHeight > 0 && visibleItems >= 1
    {
      Place(DesiredHeight(itemHeight, |items|, visibleItems), host.spaceBelow, host.spaceAbove)
    }

    function PopupWidth(): int
      reads this`dropDownWidth, this`host
    {
      if dropDownWidth != 0 then dropDownWidth else host.offsetWidth
    }

    /** The canvas is sized and placed for the current list and host. */
    ghost predicate LaidOut()
      reads this
      requires itemHeight > 0 && visibleItems >= 1
    {
      canvasWidth == PopupWidth() && canvasHeight == PopupPlacement().height &&
      placedAbove == PopupPlacement().above
    }

    /** The thumb for the current offset and canvas. */
    function FreshThumb(): Thumb
      reads this
      requires itemHeight > 0 && |items| > visibleItems >= 1 && canvasHeight >= 0
    {
      ThumbOf(scrollOffset, |items|, visibleItems, itemHeight, canvasWidth, canvasHeight)
    }

    /** The canvas shows the current state: the paint of it, and the thumb for it when that paint completed over a list longer than the window. */
    ghost predicate Current()
      reads this
      requires Valid()
    {
      itemHeight > 0 && frame == Paint(CurrentScene(), measure, paintHandled) &&
      (frame.complete && |items| > visibleItems ==> scrollbar == FreshThumb())
    }

    /** `Current`, and the thumb is still `before` when no new thumb was painted. */
    ghost predicate Shows(before: Thumb)
      reads this
      requires Valid()
    {
      Current() && (!(frame.complete && |items| > visibleItems) ==> scrollbar == before)
    }

    twostate predicate ViewUnchanged()
      reads this
    {
      unchanged(this`canvasWidth, this`canvasHeight, this`placedAbove, this`frame, this`scrollbar)
    }

    /** The effect of `render()`: an open list is laid out and repainted; a closed one keeps its canvas. */
    twostate predicate Rendered()
      reads this
      requires Valid()
    {
      if isOpen then LaidOut() && Shows(old(scrollbar)) else ViewUnchanged()
    }

    /** The effect of `showDropDown()`. */
    twostate predicate Opened(fontSize: Option<nat>)
      reads this
      requires Valid()
    {
      if old(isOpen) || old(disabled) then unchanged(this)
      else
        isOpen && itemHeight == ItemHeightFor(fontSize) &&
        unchanged(this`selectedIndex, this`lastSelectedIndex) &&
        scrollOffset == InitialOffsetIndex(selectedIndex, |items|, visibleItems) * itemHeight &&
        Rendered()
    }

    /** The effect of `closeDropDown(save)`. */
    twostate predicate Closed(save: bool)
      reads this
    {
      if !old(isOpen) then unchanged(this)
      else
        !isOpen && selectedIndex == (if save then old(selectedIndex) else old(lastSelectedIndex)) &&
        unchanged(this`lastSelectedIndex, this`scrollOffset, this`itemHeight) && ViewUnchanged()
    }

    /** The effect of `_selectItem(index)` when the `beforechange` listeners return `allowed`; `changed` says whether `change` fired. */
    twostate predicate Committed(index: int, allowed: bool, changed: bool)
      reads this
    {
      if !allowed then unchanged(this) && !changed
      else
        selectedIndex == index && lastSelectedIndex == index && !isOpen &&
        unchanged(this`scrollOffset, this`itemHeight) && ViewUnchanged() &&
        changed == (index != old(lastSelectedIndex))
    }

    /** Whether a paint of the current state on a `width` by `height` canvas runs to its end. */
    ghost predicate PaintCompletesOn(width: int, height: int)
      reads this`items, this`selectedIndex, this`scrollOffset, this`itemHeight, this`visibleItems
      requires itemHeight > 0
    {
      Paint(Scene(items, selectedIndex, scrollOffset, itemHeight, visibleItems, width, height), measure, paintHandled).complete
    }

    /**
     * The thumb once the current state is painted on a `width` by `height` canvas: a new
     * one when that paint completes over a list longer than the window, else `before`.
     */
    ghost function ThumbAfterPaintOn(before: Thumb, width: int, height: int): Thumb
      reads this`items, this`selectedIndex, this`scrollOffset, this`itemHeight, this`visibleItems
      requires itemHeight > 0 && visibleItems >= 1 && height >= 0
    {
      if PaintCompletesOn(width, height) && |items| > visibleItems
      then ThumbOf(scrollOffset, |items|, visibleItems, itemHeight, width, height)
      else before
    }

    /**
     * The effect of moving the highlight to `target` by keyboard. On an open list the canvas
     * is painted twice, by `ensureVisible` on the old canvas and then by `render()`, and a
     * failed first paint skips the second.
     */
    twostate predicate Moved(target: int, allowed: bool, changed: bool)
      reads this
      requires old(Valid()) && Valid()
    {
      selectedIndex == target && isOpen == old(isOpen) && itemHeight == old(itemHeight) &&
      scrollOffset == EnsureVisibleOffset(old(scrollOffset), target, |items|, visibleItems, itemHeight) &&
      if old(isOpen) then
        lastSelectedIndex == old(lastSelectedIndex) && !changed &&
        Shows(ThumbAfterPaintOn(old(scrollbar), old(canvasWidth), old(canvasHeight))) &&
        if PaintCompletesOn(old(canvasWidth), old(canvasHeight)) then LaidOut()
        else unchanged(this`canvasWidth, this`canvasHeight, this`placedAbove, this`scrollbar)
      else
        lastSelectedIndex == (if allowed then target else old(lastSelectedIndex)) &&
        changed == (allowed && target != old(lastSelectedIndex)) && ViewUnchanged()
    }

    /** The effect of the `blur` handler. */
    twostate predicate Blurred()
      reads this
      requires Valid()
    {
      selectedIndex == old(lastSelectedIndex) &&
      unchanged(this`isOpen, this`lastSelectedIndex, this`scrollOffset, this`itemHeight) &&
      (old(selectedIndex) == old(lastSelectedIndex) ==> unchanged(this)) &&
      (old(selectedIndex) != old(lastSelectedIndex) ==> Rendered())
    }

    /** The `selectedValue` getter. */
    function SelectedValue(): (v: Option<string>)
      reads this
      requires Valid()
      ensures v.Some? <==> selectedIndex >= 0
      ensures v.Some? ==> v.value == items[selectedIndex]
    {
      ValueAt(items, selectedIndex)
    }

    /** `_renderCanvas()`: paints the visible rows and, over a list longer than the window, the thumb. */
    method RenderCanvas()
      requires Valid() && itemHeight > 0
      modifies this`frame, this`scrollbar
      ensures Valid() && Shows(old(scrollbar))
    {
      frame := PaintRows(CurrentScene(), measure, paintHandled);
      if frame.complete && |items| > visibleItems {
        scrollbar := ThumbOf(scrollOffset, |items|, visibleItems, itemHeight, canvasWidth, canvasHeight);
      }
    }

    /** `render()`: lays out and repaints an open list. */
    method Render()
      requires Valid()
      modifies this`canvasWidth, this`canvasHeight, this`placedAbove, this`frame, this`scrollbar
      ensures Valid() && Rendered()
    {
      if isOpen {
        var p := PopupPlacement();
        canvasWidth := PopupWidth();
        canvasHeight := p.height;
        placedAbove := p.above;
        RenderCanvas();
      }
    }

    /** `showDropDown()`: opens with the selected row centred in the window when the list allows. */
    method ShowDropDown(fontSize: Option<nat>)
      requires Valid()
      modifies this`isOpen, this`itemHeight, this`scrollOffset
      modifies this`canvasWidth, this`canvasHeight, this`placedAbove, this`frame, this`scrollbar
      ensures Valid() && Opened(fontSize)
      ensures !old(isOpen) && !old(disabled) && |items| >= visibleItems ==>
        InRange(scrollOffset, |items|, visibleItems, itemHeight) &&
        (selectedIndex >= 0 ==> RowInWindow(scrollOffset, selectedIndex, visibleItems, itemHeight))
    {
      if isOpen || disabled {
        return;
      }
      isOpen := true;
      itemHeight := ItemHeightFor(fontSize);
      scrollOffset := InitialOffsetIndex(selectedIndex, |items|, visibleItems) * itemHeight;
      if |items| >= visibleItems {
        OpenOffsetShowsSelected(selectedIndex, |items|, visibleItems, itemHeight);
      }
      Render();
    }

    /** `closeDropDown(save)`: closes, restoring the committed option unless `save`. */
    method CloseDropDown(save: bool)
      requires Valid()
      modifies this`isOpen, this`selectedIndex
      modifies this`canvasWidth, this`canvasHeight, this`placedAbove, this`frame, this`scrollbar
      ensures Valid() && Closed(save)
    {
      if !isOpen {
        return;
      }
      isOpen := false;
      if !save {
        selectedIndex := lastSelectedIndex;
      }
      Render();
    }

    method ToggleDropDown(fontSize: Option<nat>)
      requires Valid()
      modifies this`isOpen, this`selectedIndex, this`itemHeight, this`scrollOffset
      modifies this`canvasWidth, this`canvasHeight, this`placedAbove, this`frame, this`scrollbar
      ensures Valid()
      ensures if old(isOpen) then Closed(false) else Opened(fontSize)
    {
      if isOpen {
        CloseDropDown(false);
      } else {
        ShowDropDown(fontSize);
      }
    }

    /**
     * `_selectItem(index)`: unless a `beforechange` listener vetoes, selects `index`, closes
     * keeping it, and commits it, firing `change` when it differs from the committed one.
     */
    method SelectItem(index: int, allowed: bool) returns (accepted: bool, changed: bool)
      requires Valid() && -1 <= index < |items|
      modifies this`selectedIndex, this`lastSelectedIndex, this`isOpen
      modifies this`canvasWidth, this`canvasHeight, this`placedAbove, this`frame, this`scrollbar
      ensures Valid() && accepted == allowed && Committed(index, allowed, changed)
    {
      accepted, changed := allowed, false;
      if !allowed {
        return;
      }
      selectedIndex := index;
      if isOpen {
        CloseDropDown(true);
      }
      if selectedIndex != lastSelectedIndex {
        lastSelectedIndex := selectedIndex;
        changed := true;
      }
    }

    /** The `selectedIndex` setter: stores the value if it names an item, else -1, and commits it. */
    method SetSelectedIndex(value: int)
      requires Consistent()
      modifies this`selectedIndex, this`lastSelectedIndex
      modifies this`canvasWidth, this`canvasHeight, this`placedAbove, this`frame, this`scrollbar
      ensures Valid()
      ensures selectedIndex == ValidatedIndex(value, |items|) && lastSelectedIndex == selectedIndex
      ensures Rendered()
    {
      selectedIndex := ValidatedIndex(value, |items|);
      lastSelectedIndex := selectedIndex;
      Render();
    }

    /** The `items` setter: replaces the list and re-validates the selection against it. */
    method SetItems(value: seq<string>)
      requires Valid()
      modifies this`items, this`selectedIndex, this`lastSelectedIndex
      modifies this`canvasWidth, this`canvasHeight, this`placedAbove, this`frame, this`scrollbar
      ensures Valid() && items == value
      ensures selectedIndex == ValidatedIndex(old(selectedIndex), |value|) && lastSelectedIndex == selectedIndex
      ensures Rendered()
    {
      items := value;
      SetSelectedIndex(selectedIndex);
    }

    /** The `selectedValue` setter: selects the first item equal to `value`, or nothing. */
    method SetSelectedValue(value: string)
      requires Valid()
      modifies this`selectedIndex, this`lastSelectedIndex
      modifies this`canvasWidth, this`canvasHeight, this`placedAbove, this`frame, this`scrollbar
      ensures Valid()
      ensures selectedIndex == IndexOf(items, value) && lastSelectedIndex == selectedIndex
      ensures SelectedValue() == if value in items then Some(value) else None
      ensures Rendered()
    {
      SelectedValueRoundTrip(items, value);
      SetSelectedIndex(IndexOf(items, value));
    }

    /** The `placeholder` setter: a new text is stored and rendered; the same text changes nothing. */
    method SetPlaceholder(value: string)
      requires Valid()
      modifies this`placeholder
      modifies this`canvasWidth, this`canvasHeight, this`placedAbove, this`frame, this`scrollbar
      ensures Valid() && placeholder == value
      ensures value == old(placeholder) ==> unchanged(this)
      ensures value != old(placeholder) ==> Rendered()
    {
      if value == placeholder {
        return;
      }
      placeholder := value;
      Render();
    }

    /** The `disabled` setter: a new value is stored and rendered; the same value changes nothing. */
    method SetDisabled(value: bool)
      requires Valid()
      modifies this`disabled
      modifies this`canvasWidth, this`canvasHeight, this`placedAbove, this`frame, this`scrollbar
      ensures Valid() && disabled == value
      ensures value == old(disabled) ==> unchanged(this)
      ensures value != old(disabled) ==> Rendered()
    {
      if value == disabled {
        return;
      }
      disabled := value;
      Render();
    }

    /** Losing focus drops an uncommitted highlight. */
    method HandleBlur()
      requires Valid()
      modifies this`selectedIndex
      modifies this`canvasWidth, this`canvasHeight, this`placedAbove, this`frame, this`scrollbar
      ensures Valid() && Blurred()
    {
      if selectedIndex != lastSelectedIndex {
        selectedIndex := lastSelectedIndex;
        Render();
      }
    }

    /** A click inside the element toggles the list when it lands on the header. */
    method HandleClick(onHeader: bool, fontSize: Option<nat>)
      requires Valid()
      modifies this`isOpen, this`selectedIndex, this`itemHeight, this`scrollOffset
      modifies this`canvasWidth, this`canvasHeight, this`placedAbove, this`frame, this`scrollbar
      ensures Valid()
      ensures !onHeader ==> unchanged(this)
      ensures onHeader ==> if old(isOpen) then Closed(false) else Opened(fontSize)
    {
      if onHeader {
        ToggleDropDown(fontSize);
      }
    }

    /** A press anywhere in the document outside the element closes an open list without committing. */
    method HandleDocumentMouseDown(outside: bool)
      requires Valid()
      modifies this`isOpen, this`selectedIndex
      modifies this`canvasWidth, this`canvasHeight, this`placedAbove, this`frame, this`scrollbar
      ensures Valid()
      ensures old(isOpen) && outside ==> Closed(false)
      ensures !(old(isOpen) && outside) ==> unchanged(this)
    {
      if !isOpen {
        return;
      }
      if outside {
        CloseDropDown(false);
      }
    }

    /** `ensureVisible(index)`: scrolls the least distance that shows the row whole, repainting an open list. */
    method EnsureVisible(index: int) returns (completed: bool)
      requires Valid()
      modifies this`scrollOffset, this`frame, this`scrollbar
      ensures Valid()
      ensures scrollOffset == EnsureVisibleOffset(old(scrollOffset), index, |items|, visibleItems, itemHeight)
      ensures 0 <= index < |items| && isOpen ==> Shows(old(scrollbar)) && completed == frame.complete
      ensures !(0 <= index < |items| && isOpen) ==> unchanged(this`frame, this`scrollbar) && completed
    {
      completed := true;
      if index < 0 || index >= |items| {
        return;
      }
      scrollOffset := EnsureVisibleOffset(scrollOffset, index, |items|, visibleItems, itemHeight);
      if isOpen {
        RenderCanvas();
        completed := frame.complete;
      }
    }

    /**
     * Highlights `target`, scrolls it into view and renders; a closed list then commits it.
     * A paint that fails ends the key's handling before the render.
     */
    method MoveHighlight(target: int, allowed: bool) returns (changed: bool)
      requires Valid() && 0 <= target < |items|
      modifies this`selectedIndex, this`lastSelectedIndex, this`isOpen, this`scrollOffset
      modifies this`canvasWidth, this`canvasHeight, this`placedAbove, this`frame, this`scrollbar
      ensures Valid() && Moved(target, allowed, changed)
    {
      changed := false;
      selectedIndex := target;
      var completed := EnsureVisible(target);
      if !completed {
        assert CurrentScene() == Scene(items, target, scrollOffset, itemHeight, visibleItems, old(canvasWidth), old(canvasHeight));
        return;
      }
      ghost var painted := scrollbar;
      assert isOpen ==> painted == ThumbAfterPaintOn(old(scrollbar), old(canvasWidth), old(canvasHeight));
      Render();
      if isOpen {
        assert painted == ThumbAfterPaintOn(old(scrollbar), old(canvasWidth), old(canvasHeight));
        assert Shows(painted);
      }
      if !isOpen {
        var _, c := SelectItem(selectedIndex, allowed);
        changed := c;
      }
    }

    /**
     * A key pressed while the element has focus. Arrows move the highlight (committing it
     * when closed); Enter commits when open and opens when closed; Space opens; Tab and
     * Escape close without committing, and Escape on a closed list gives up focus; any
     * other key, on an open list and not auto-repeated, highlights the first item starting
     * with it. `changed` says whether `change` fired.
     */
    method HandleKeyDown(key: string, focused: bool, repeat: bool, allowed: bool, fontSize: Option<nat>)
      returns (changed: bool)
      requires Valid()
      modifies this`selectedIndex, this`lastSelectedIndex, this`isOpen, this`itemHeight, this`scrollOffset
      modifies this`canvasWidth, this`canvasHeight, this`placedAbove, this`frame, this`scrollbar
      ensures Valid()
      ensures !focused ==> unchanged(this) && !changed
      ensures focused && (key == "ArrowDown" || key == "ArrowUp") ==>
        if |items| == 0 then unchanged(this) && !changed
        else Moved(if key == "ArrowDown" then NextIndex(old(selectedIndex), |items|)
                   else PreviousIndex(old(selectedIndex), |items|), allowed, changed)
      ensures focused && key == "Enter" ==>
        if old(isOpen) then Committed(old(selectedIndex), allowed, changed)
        else Opened(fontSize) && !changed
      ensures focused && key == " " ==> !changed && if old(isOpen) then unchanged(this) else Opened(fontSize)
      ensures focused && key == "Tab" ==> !changed && if old(isOpen) then Closed(false) else unchanged(this)
      ensures focused && key == "Escape" ==> !changed && if old(isOpen) then Closed(false) else Blurred()
      ensures focused && !NamedKey(key) ==> !changed
      ensures focused && !NamedKey(key) && old(isOpen) && !repeat && TypeAheadIndex(items, key) >= 0 ==>
        Moved(TypeAheadIndex(items, key), allowed, false)
      ensures focused && !NamedKey(key) && !(old(isOpen) && !repeat && TypeAheadIndex(items, key) >= 0) ==>
        unchanged(this)
    {
      changed := false;
      if !focused {
        return;
      }
      if key == "ArrowDown" || key == "ArrowUp" {
        if |items| == 0 {
          return;
        }
        var target := if key == "ArrowDown" then NextIndex(selectedIndex, |items|)
                      else PreviousIndex(selectedIndex, |items|);
        changed := MoveHighlight(target, allowed);
      } else if key == "Enter" {
        if isOpen {
          var _, c := SelectItem(selectedIndex, allowed);
          changed := c;
        } else {
          ShowDropDown(fontSize);
        }
      } else if key == " " {
        if !isOpen {
          ShowDropDown(fontSize);
        }
      } else if key == "Tab" {
        if isOpen {
          CloseDropDown(false);
        }
      } else if key == "Escape" {
        if isOpen {
          CloseDropDown(false);
        } else {
          HandleBlur();
        }
      } else if isOpen && !repeat {
        var index := TypeAheadIndex(items, key);
        if index >= 0 {
          var c := MoveHighlight(index, allowed);
        }
      }
    }

    /** The wheel scrolls by the wheel's delta, clamped to the list. */
    method HandleScroll(deltaY: int)
      requires Valid() && itemHeight > 0
      modifies this`scrollOffset, this`frame, this`scrollbar
      ensures Valid()
      ensures scrollOffset == WheelOffset(old(scrollOffset), deltaY, |items|, visibleItems, itemHeight)
      ensures Shows(old(scrollbar))
    {
      scrollOffset := WheelOffset(scrollOffset, deltaY, |items|, visibleItems, itemHeight);
      RenderCanvas();
    }

    /** Whether a click at `x` falls in the scrollbar band; the canvas's width stands in for its box's when set. */
    predicate OnScrollbarBand(x: int, rectWidth: int)
      reads this
    {
      |items| > visibleItems && x >= (if canvasWidth != 0 then canvasWidth else rectWidth) - scrollbar.width - 6
    }

    /**
     * A click on the open canvas, ignored during a drag: in the scrollbar band it jumps the
     * offset to the same fraction of the list as `y` is of the canvas; on a row it selects it.
     */
    method HandleCanvasClick(x: int, y: int, rectWidth: int, allowed: bool) returns (changed: bool)
      requires Valid()
      modifies this`selectedIndex, this`lastSelectedIndex, this`isOpen, this`scrollOffset
      modifies this`canvasWidth, this`canvasHeight, this`placedAbove, this`frame, this`scrollbar
      ensures Valid()
      ensures !old(isOpen) || old(draggingScrollbar) ==> unchanged(this) && !changed
      ensures old(isOpen) && !old(draggingScrollbar) && old(OnScrollbarBand(x, rectWidth)) ==>
        !changed && scrollOffset == TrackJumpOffset(y, canvasHeight, |items|, visibleItems, itemHeight) &&
        Shows(old(scrollbar)) && unchanged(this`selectedIndex, this`lastSelectedIndex, this`isOpen) &&
        unchanged(this`canvasWidth, this`canvasHeight, this`placedAbove)
      ensures old(isOpen) && !old(draggingScrollbar) && !old(OnScrollbarBand(x, rectWidth)) ==>
        var row := ClickedRow(old(scrollOffset), y, itemHeight);
        if 0 <= row < |items| then Committed(row, allowed, changed) else unchanged(this) && !changed
    {
      changed := false;
      if !isOpen || draggingScrollbar {
        return;
      }
      if OnScrollbarBand(x, rectWidth) {
        scrollOffset := TrackJumpOffset(y, canvasHeight, |items|, visibleItems, itemHeight);
        RenderCanvas();
        return;
      }
      var row := ClickedRow(scrollOffset, y, itemHeight);
      if 0 <= row < |items| {
        var _, c := SelectItem(row, allowed);
        changed := c;
      }
    }

    /** A press on the thumb of an open, scrolling list starts a drag from there. */
    method HandleCanvasMouseDown(x: int, y: int)
      requires Valid()
      modifies this`draggingScrollbar, this`dragStartY, this`dragStartOffset
      ensures Valid()
      ensures if isOpen && |items| > visibleItems && ThumbHit(scrollbar, canvasWidth, canvasHeight, |items|, visibleItems, x, y)
              then draggingScrollbar && dragStartY == y && dragStartOffset == scrollOffset
              else unchanged(this)
    {
      if !isOpen || |items| <= visibleItems {
        return;
      }
      if ThumbHit(scrollbar, canvasWidth, canvasHeight, |items|, visibleItems, x, y) {
        draggingScrollbar := true;
        dragStartY := y;
        dragStartOffset := scrollOffset;
      }
    }

    /** During a drag, pointer motion scrolls in proportion to the distance moved along the track. */
    method HandleDocumentMouseMove(y: int)
      requires Valid()
      modifies this`scrollOffset, this`frame, this`scrollbar
      ensures Valid()
      ensures !draggingScrollbar ==> unchanged(this)
      ensures draggingScrollbar ==>
        scrollOffset == DragOffset(y, dragStartY, dragStartOffset, old(scrollbar), canvasHeight, |items|, visibleItems, itemHeight) &&
        Shows(old(scrollbar))
    {
      if !draggingScrollbar {
        return;
      }
      scrollOffset := DragOffset(y, dragStartY, dragStartOffset, scrollbar, canvasHeight, |items|, visibleItems, itemHeight);
      RenderCanvas();
    }

    /**
     * Releasing the pointer ends a drag, but only after the click that follows the release
     * has been handled: the result says whether that deferred `EndDrag` is due.
     */
    method HandleDocumentMouseUp() returns (endLater: bool)
      ensures endLater <==> draggingScrollbar
    {
      endLater := draggingScrollbar;
    }

    /** The deferred end of a drag. */
    method EndDrag()
      requires Valid()
      modifies this`draggingScrollbar
      ensures Valid() && !draggingScrollbar
    {
      draggingScrollbar := false;
    }
  }
}
