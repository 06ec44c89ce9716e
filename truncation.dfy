/**
 * Fitting a row label into the canvas width. A label too wide is first cut coarsely,
 * 50 characters at a time while it is longer than 100 characters and still too wide;
 * the last cut is then undone once, and the label is trimmed one character at a time
 * until it fits with the ellipsis after it. `measure` is the drawing surface's text
 * width in the row font.
 */
module Truncation {
  import opened Viewport

  const Ellipsis: string := "..."

  /** Labels longer than this are cut coarsely. */
  const CoarseLimit: nat := 100

  /** Characters removed by one coarse cut, and restored once afterwards. */
  const CoarseStep: nat := 50

  /** Whether the first `n` characters of `item` fit with the ellipsis after them. */
  predicate FitsWithEllipsis(item: string, n: nat, maxWidth: int, measure: string -> int)
    requires n <= |item|
  {
    measure(item[..n] + Ellipsis) <= maxWidth
  }

  /** The length the coarse loop stops at, started on the first `n` characters. */
  function CoarseLength(item: string, n: nat, maxWidth: int, measure: string -> int): (k: nat)
    requires n <= |item|
    ensures k <= n
    ensures n <= CoarseLimit ==> k == n
    ensures k < n ==> CoarseStep < k && k + CoarseStep <= n && measure(item[..k + CoarseStep]) > maxWidth
    ensures k <= CoarseLimit || measure(item[..k]) <= maxWidth
    decreases n
  {
    if n > CoarseLimit && measure(item[..n]) > maxWidth then
      CoarseLength(item, n - CoarseStep, maxWidth, measure)
    else n
  }

  /** The coarse loop removes whole blocks of 50 characters. */
  lemma {:induction false} CoarseCutsWholeBlocks(item: string, n: nat, maxWidth: int, measure: string -> int)
    requires n <= |item|
    ensures (n - CoarseLength(item, n, maxWidth, measure)) % CoarseStep == 0
    decreases n
  {
    if n > CoarseLimit && measure(item[..n]) > maxWidth {
      CoarseCutsWholeBlocks(item, n - CoarseStep, maxWidth, measure);
      var k := CoarseLength(item, n, maxWidth, measure);
      assert n - k == (n - CoarseStep - k) + CoarseStep;
    }
  }

  /**
   * Every length the coarse loop passed through on the way down was still longer than
   * 100 characters and too wide: the loop stops at the first block boundary that fits.
   */
  lemma {:induction false} CoarseCutsOnlyTooWide(item: string, n: nat, maxWidth: int, measure: string -> int, j: nat)
    requires n <= |item|
    requires CoarseLength(item, n, maxWidth, measure) < j <= n && (n - j) % CoarseStep == 0
    ensures CoarseLimit < j && measure(item[..j]) > maxWidth
    decreases n
  {
    if j < n {
      assert n - j >= CoarseStep;
      CoarseCutsOnlyTooWide(item, n - CoarseStep, maxWidth, measure, j);
    }
  }

  /** The length the fine loop stops at, once the first cut has left `n` characters. */
  function FineLength(item: string, n: nat, maxWidth: int, measure: string -> int): (k: nat)
    requires n <= |item|
    ensures k <= n
    ensures n >= 1 ==> k >= 1
    ensures k <= 1 || FitsWithEllipsis(item, k, maxWidth, measure)
    ensures forall j :: k < j <= n ==> !FitsWithEllipsis(item, j, maxWidth, measure)
    decreases n
  {
    if n > 1 && !FitsWithEllipsis(item, n, maxWidth, measure) then
      FineLength(item, n - 1, maxWidth, measure)
    else n
  }

  /** The length the coarse cut is restored to: 50 more characters, as far as the label goes. */
  function RestoredLength(item: string, maxWidth: int, measure: string -> int): (k: nat)
  {
    Min(CoarseLength(item, |item|, maxWidth, measure) + CoarseStep, |item|)
  }

  /** The length of the label part kept before the ellipsis. */
  function KeptLength(item: string, maxWidth: int, measure: string -> int): (k: nat)
    ensures k <= |item| && (|item| > 0 ==> k < |item|)
  {
    var restored := RestoredLength(item, maxWidth, measure);
    FineLength(item, Max(0, restored - 1), maxWidth, measure)
  }

  /** The text drawn for a label in a row whose text may be `maxWidth` wide. */
  function Truncate(item: string, maxWidth: int, measure: string -> int): (r: string)
  {
    if measure(item) <= maxWidth then item
    else item[..KeptLength(item, maxWidth, measure)] + Ellipsis
  }

  /** A label that fits is drawn as it is. */
  lemma TruncateKeepsFitting(item: string, maxWidth: int, measure: string -> int)
    requires measure(item) <= maxWidth
    ensures Truncate(item, maxWidth, measure) == item
  {
  }

  /**
   * A label too wide becomes a strict prefix of itself followed by the ellipsis, and
   * that text fits unless the prefix is down to one character or none.
   */
  lemma TruncateShape(item: string, maxWidth: int, measure: string -> int)
    requires measure(item) > maxWidth
    ensures var r := Truncate(item, maxWidth, measure);
      var p := r[..|r| - |Ellipsis|];
      |r| >= |Ellipsis| && r[|r| - |Ellipsis|..] == Ellipsis &&
      p <= item && (|item| > 0 ==> |p| < |item|) &&
      (measure(r) <= maxWidth || |p| <= 1)
  {
    var k := KeptLength(item, maxWidth, measure);
    var r := Truncate(item, maxWidth, measure);
    assert r == item[..k] + Ellipsis;
    assert r[..|r| - |Ellipsis|] == item[..k];
    assert k <= 1 || FitsWithEllipsis(item, k, maxWidth, measure);
  }

  /**
   * The fine phase keeps the longest prefix that fits among those shorter than the
   * restored length: every longer one, down from the restored length, was too wide.
   */
  lemma TruncateFineIsTight(item: string, maxWidth: int, measure: string -> int, j: nat)
    requires measure(item) > maxWidth
    requires KeptLength(item, maxWidth, measure) < j < RestoredLength(item, maxWidth, measure)
    ensures !FitsWithEllipsis(item, j, maxWidth, measure)
  {
  }

  /** A width that grows with the text: a longer prefix is no narrower, and the ellipsis adds width. */
  ghost predicate Monotone(measure: string -> int)
  {
    (forall s: string, t: string :: s <= t ==> measure(s) <= measure(t)) &&
    (forall s: string :: measure(s) <= measure(s + Ellipsis))
  }

  /**
   * When widths grow with the text, the two phases together keep the longest prefix of
   * the label that fits with the ellipsis: no longer strict prefix fits.
   */
  lemma {:induction false} TruncateKeepsLongestFit(item: string, maxWidth: int, measure: string -> int, j: nat)
    requires Monotone(measure) && measure(item) > maxWidth
    requires KeptLength(item, maxWidth, measure) < j < |item|
    ensures !FitsWithEllipsis(item, j, maxWidth, measure)
  {
    var restored := RestoredLength(item, maxWidth, measure);
    var coarse := CoarseLength(item, |item|, maxWidth, measure);
    if j >= restored {
      // the coarse loop cut the label, and the restored prefix was measured too wide
      assert coarse < |item| && restored == coarse + CoarseStep;
      assert item[..restored] <= item[..j];
      assert item[..j] <= item[..j] + Ellipsis;
      assert measure(item[..restored]) <= measure(item[..j]) <= measure(item[..j] + Ellipsis);
    } else {
      TruncateFineIsTight(item, maxWidth, measure, j);
    }
  }

  /** A cut the coarse loop makes does not move the point where it stops. */
  lemma CoarseCutStep(item: string, n: nat, maxWidth: int, measure: string -> int)
    requires CoarseLimit < n <= |item| && measure(item[..n]) > maxWidth
    ensures CoarseLength(item, n - CoarseStep, maxWidth, measure) == CoarseLength(item, n, maxWidth, measure)
  {
  }

  /** The coarse loop: cuts 50 characters at a time while the text is over 100 characters and too wide. */
  method CoarseCut(item: string, maxWidth: int, measure: string -> int) returns (text: string)
    ensures text == item[..CoarseLength(item, |item|, maxWidth, measure)]
  {
    text := item;
    while |text| > CoarseLimit && measure(text) > maxWidth
      invariant |text| <= |item| && text == item[..|text|]
      invariant CoarseLength(item, |text|, maxWidth, measure) == CoarseLength(item, |item|, maxWidth, measure)
      decreases |text|
    {
      CoarseCutStep(item, |text|, maxWidth, measure);
      text := text[..|text| - CoarseStep];
      assert text == item[..|text|];
    }
  }

  /**
   * The fine loop, from the first `n` characters: drops one character at a time until the
   * text fits with the ellipsis or one character is left.
   */
  method FineTrim(item: string, n: nat, maxWidth: int, measure: string -> int) returns (text: string)
    requires n <= |item|
    ensures text == item[..FineLength(item, n, maxWidth, measure)]
  {
    text := item[..n];
    while |text| > 1 && measure(text + Ellipsis) > maxWidth
      invariant |text| <= n && text == item[..|text|]
      invariant FineLength(item, |text|, maxWidth, measure) == FineLength(item, n, maxWidth, measure)
      decreases |text|
    {
      text := text[..|text| - 1];
    }
  }

  /**
   * The row painter's truncation: the coarse cut, one block of 50 characters restored, the
   * fine trim whose first step always drops a character, and the ellipsis.
   */
  method TruncateLabel(item: string, maxWidth: int, measure: string -> int) returns (text: string)
    ensures text == Truncate(item, maxWidth, measure)
  {
    text := item;
    if measure(text) > maxWidth {
      text := CoarseCut(item, maxWidth, measure);
      if |text| < |item| {
        text := text + item[|text|..Min(|text| + CoarseStep, |item|)];
      }
      assert |text| == RestoredLength(item, maxWidth, measure);
      text := FineTrim(item, Max(0, |text| - 1), maxWidth, measure);
      text := text + Ellipsis;
    }
  }
}
