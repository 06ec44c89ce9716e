/** The selection model's pure parts: index validation, lookups and the header text. */
module Selection {
  import opened Wrappers
  import opened Viewport

  /** The index the `selectedIndex` setter stores: the value if it names an item, else -1. */
  function ValidatedIndex(value: int, count: int): (r: int)
    ensures r == -1 || 0 <= r < count
    ensures 0 <= value < count ==> r == value
    ensures !(0 <= value < count) ==> r == -1
  {
    if value >= 0 && value < count then value else -1
  }

  /** `indexOf`: the first position holding `value`, or -1. */
  function IndexOf(items: seq<string>, value: string): (r: int)
    ensures -1 <= r < |items|
    ensures r == -1 <==> value !in items
    ensures r >= 0 ==> items[r] == value && value !in items[..r]
  {
    if |items| == 0 then -1
    else if items[0] == value then 0
    else
      var r := IndexOf(items[1..], value);
      assert items[1..][..Max(r, 0)] == items[1..Max(r, 0) + 1];
      if r < 0 then -1 else r + 1
  }

  /** The value the `selectedValue` getter returns: the selected item, or none when nothing is selected. */
  function ValueAt(items: seq<string>, selected: int): (v: Option<string>)
    requires -1 <= selected < |items|
    ensures v.Some? <==> selected >= 0
    ensures v.Some? ==> v.value == items[selected]
  {
    if selected < 0 then None else Some(items[selected])
  }

  /**
   * Setting `selectedValue` to `v` and reading it back gives `v` when it is an item
   * (the first position holding it is selected) and nothing otherwise.
   */
  lemma SelectedValueRoundTrip(items: seq<string>, value: string)
    ensures var i := ValidatedIndex(IndexOf(items, value), |items|);
      -1 <= i < |items| &&
      ValueAt(items, i) == if value in items then Some(value) else None
  {
  }

  /** ASCII case folding of one character, as `toLowerCase` does for A to Z. */
  function LowerChar(c: char): (d: char)
    ensures 'A' <= c <= 'Z' ==> 'a' <= d <= 'z' && d as int - c as int == 32
    ensures !('A' <= c <= 'Z') ==> d == c
  {
    if 'A' <= c <= 'Z' then (c as int + 32) as char else c
  }

  function Lower(s: string): (r: string)
    ensures |r| == |s|
  {
    seq(|s|, i requires 0 <= i < |s| => LowerChar(s[i]))
  }

  /** ArrowDown's target: the next row, staying on the last one. */
  function NextIndex(selected: int, count: int): (r: int)
    requires -1 <= selected < count && count > 0
    ensures 0 <= r < count
    ensures r <= selected + 1
    ensures r > selected || r == count - 1
  {
    Min(count - 1, selected + 1)
  }

  /** ArrowUp's target: the previous row, staying on the first one (no selection goes to the first). */
  function PreviousIndex(selected: int, count: int): (r: int)
    requires -1 <= selected < count && count > 0
    ensures 0 <= r < count
    ensures r >= selected - 1
    ensures r < selected || r == 0
  {
    Max(0, selected - 1)
  }

  /** Down then up, and up then down, come back to an inner row. */
  lemma ArrowsUndoEachOther(selected: int, count: int)
    requires 0 <= selected < count
    ensures selected < count - 1 ==> PreviousIndex(NextIndex(selected, count), count) == selected
    ensures selected > 0 ==> NextIndex(PreviousIndex(selected, count), count) == selected
  {
  }

  /** Whether a typed key picks `item`: the key, folded, is the item's first character, folded. */
  predicate StartsWithKey(item: string, key: string)
  {
    |item| > 0 && Lower(key) == [LowerChar(item[0])]
  }

  /** `findIndex` for type-ahead: the first item whose first character matches the key, or -1. */
  function TypeAheadIndex(items: seq<string>, key: string): (r: int)
    ensures -1 <= r < |items|
    ensures r >= 0 ==> StartsWithKey(items[r], key)
    ensures forall j :: 0 <= j < |items| && (r < 0 || j < r) ==> !StartsWithKey(items[j], key)
  {
    if |items| == 0 then -1
    else if StartsWithKey(items[0], key) then 0
    else
      var r := TypeAheadIndex(items[1..], key);
      if r < 0 then -1 else r + 1
  }

  /** Only a single-character key can match. */
  lemma TypeAheadNeedsOneCharacter(items: seq<string>, key: string)
    requires |key| != 1
    ensures TypeAheadIndex(items, key) == -1
  {
  }

  /** What the header shows: the selected item, or the placeholder. */
  datatype HeaderText = SelectedLabel(text: string) | PlaceholderText(text: string)

  /**
   * The header shows the selected item only when it is truthy; an empty item, like
   * no selection, shows the placeholder.
   */
  function Header(items: seq<string>, selected: int, placeholder: string): (h: HeaderText)
    requires -1 <= selected < |items|
    ensures h.SelectedLabel? <==> selected >= 0 && items[selected] != ""
    ensures h.SelectedLabel? ==> h.text == items[selected]
    ensures h.PlaceholderText? ==> h.text == placeholder
  {
    if selected >= 0 && items[selected] != "" then SelectedLabel(items[selected])
    else PlaceholderText(placeholder)
  }
}
