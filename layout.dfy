/** Where the popup goes, above or below the header, and how tall it is. */
module Layout {
  import opened Viewport

  /** The smallest height a popup is given when neither side has room for the full list. */
  const MinPopupHeight: int := 20

  datatype Placement = Placement(above: bool, height: int)

  /** Room for the whole window: `itemHeight` times the row count, the count taken between 1 and `visible`. */
  function DesiredHeight(itemHeight: int, count: int, visible: int): (d: int)
    requires itemHeight > 0 && visible >= 1
    ensures itemHeight <= d <= visible * itemHeight
    ensures 0 < count <= visible ==> d == count * itemHeight
    ensures count >= visible ==> d == visible * itemHeight
    ensures count <= 0 ==> d == itemHeight
  {
    var rows := Max(1, Min(count, visible));
    MulLeq(1, rows, itemHeight);
    MulLeq(rows, visible, itemHeight);
    itemHeight * rows
  }

  /**
   * The placement decision. Below at the desired height when it fits below; otherwise
   * above at the desired height when it fits above; otherwise on the roomier side
   * (a tie goes below) at that side's room, but never under 20 pixels.
   */
  function Place(desired: int, spaceBelow: int, spaceAbove: int): (p: Placement)
    ensures p.above <==> spaceBelow < desired && (spaceAbove >= desired || spaceAbove > spaceBelow)
    ensures spaceBelow >= desired || spaceAbove >= desired ==> p.height == desired
    ensures p.height <= Max(desired, MinPopupHeight)
    ensures p.height >= Min(desired, MinPopupHeight)
    ensures p.height <= (if p.above then spaceAbove else spaceBelow) || p.height == MinPopupHeight
    ensures p.height < desired ==> p.height == Max(MinPopupHeight, if p.above then spaceAbove else spaceBelow)
    ensures p.height < desired ==> (if p.above then spaceAbove > spaceBelow else spaceBelow >= spaceAbove)
  {
    if spaceBelow >= desired then Placement(false, desired)
    else if spaceAbove >= desired then Placement(true, desired)
    else if spaceBelow >= spaceAbove then Placement(false, Max(MinPopupHeight, spaceBelow))
    else Placement(true, Max(MinPopupHeight, spaceAbove))
  }

  /** Whenever the list is shown its canvas is at least a pixel tall. */
  lemma PlacementPositive(itemHeight: int, count: int, visible: int, spaceBelow: int, spaceAbove: int)
    requires itemHeight > 0 && visible >= 1
    ensures Place(DesiredHeight(itemHeight, count, visible), spaceBelow, spaceAbove).height > 0
  {
  }
}
