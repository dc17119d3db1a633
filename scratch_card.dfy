/** components/scratch-card.tsx: the share of the canvas scratched away,
    counted from the alpha bytes of its RGBA pixel buffer, the 60% rule that
    hides the canvas, and the latch that reports a card's first scratch once. */
module ScratchCardView {
  import opened Wrappers
  import opened Seqs
  import opened Types

  newtype byte = x: int | 0 <= x < 256

  /** The bytes the loop `for (let i = 3; i < pixels.length; i += 4)` reads:
      the alpha byte of every whole pixel. */
  function AlphaChannel(pixels: seq<byte>): (alpha: seq<byte>)
    ensures |alpha| == |pixels| / 4
    ensures forall k :: 0 <= k < |alpha| ==> alpha[k] == pixels[4 * k + 3]
  {
    seq(|pixels| / 4, k requires 0 <= k < |pixels| / 4 => pixels[4 * k + 3])
  }

  predicate IsTransparent(a: byte) {
    a == 0
  }

  /** The number of fully transparent pixels. */
  function TransparentCount(pixels: seq<byte>): (n: nat)
    ensures n <= |pixels| / 4
  {
    |Filter(AlphaChannel(pixels), IsTransparent)|
  }

  /** `checkScratchPercentage`'s counting loop. */
  method CountTransparent(pixels: array<byte>) returns (transparent: nat)
    ensures transparent == TransparentCount(pixels[..])
  {
    ghost var alpha := AlphaChannel(pixels[..]);
    transparent := 0;
    var i := 3;
    ghost var k := 0;
    while i < pixels.Length
      invariant i == 4 * k + 3 && 0 <= k <= |alpha|
      invariant k < |alpha| <==> i < pixels.Length
      invariant transparent == |Filter(alpha[..k], IsTransparent)|
      decreases pixels.Length - i
    {
      assert alpha[k] == pixels[i];
      assert alpha[..k + 1] == alpha[..k] + [alpha[k]];
      FilterAppend(alpha[..k], [alpha[k]], IsTransparent);
      if pixels[i] == 0 {
        transparent := transparent + 1;
      }
      i := i + 4;
      k := k + 1;
    }
    assert alpha[..k] == alpha;
  }

  /** `(transparent / (pixels.length / 4)) * 100`, or `None` for the `NaN`
      an empty buffer gives. The divisor is a real quotient, not a floor. */
  function ScratchedPercentage(pixels: seq<byte>): (p: Option<real>)
    ensures p.None? <==> |pixels| == 0
    ensures p.Some? ==> 0.0 <= p.value <= 100.0
  {
    if |pixels| == 0 then None
    else
      var t, quarter := TransparentCount(pixels) as real, |pixels| as real / 4.0;
      assert t <= quarter by {
        assert (|pixels| / 4) * 4 <= |pixels|;
      }
      DivCompare(t, quarter, 1.0);
      DivCompare(t, quarter, 0.0);
      Some((t / quarter) * 100.0)
  }

  /** `percentage > 60`; `NaN > 60` is false. */
  predicate HidesCanvas(p: Option<real>) {
    p.Some? && p.value > 60.0
  }

  /** On a buffer of whole pixels the canvas goes once more than three in
      five pixels are transparent, and the percentage is 100 exactly when
      every pixel is. */
  lemma HidesWhenThreeFifthsScratched(pixels: seq<byte>)
    requires |pixels| > 0 && |pixels| % 4 == 0
    ensures HidesCanvas(ScratchedPercentage(pixels)) <==> 5 * TransparentCount(pixels) > 3 * (|pixels| / 4)
    ensures ScratchedPercentage(pixels) == Some(100.0) <==> TransparentCount(pixels) == |pixels| / 4
  {
    var t, n := TransparentCount(pixels), |pixels| / 4;
    assert |pixels| as real / 4.0 == n as real;
    DivCompare(t as real, n as real, 0.6);
    DivCompare(t as real, n as real, 1.0);
  }

  lemma DivCompare(t: real, n: real, c: real)
    requires n > 0.0
    ensures t / n > c <==> t > c * n
    ensures t / n == c <==> t == c * n
  {
    MulMonotone(t / n, c, n);
  }

  lemma MulMonotone(a: real, b: real, n: real)
    requires n > 0.0
    ensures a > b <==> a * n > b * n
    ensures a == b <==> a * n == b * n
  {
    if a > b {
      assert (a - b) * n > 0.0;
    } else if a < b {
      assert (b - a) * n > 0.0;
    }
  }

  /** The won-prize panel, or the mystery panel before a result exists. */
  datatype PrizePanel = WonPrize(text: string, image: Option<string>) | MysteryPrize

  /** The panel under the canvas: the won prize exactly when there is a
      result, with its image only when it has a non-empty one. */
  function PrizeView(scratchedResult: Option<ScratchResult>): (panel: PrizePanel)
    ensures panel.WonPrize? <==> scratchedResult.Some?
    ensures panel.WonPrize? ==> panel.text == scratchedResult.value.prize.text
    ensures panel.WonPrize? ==>
      (panel.image.Some? <==> (scratchedResult.value.prize.image.Some? && scratchedResult.value.prize.image.value != ""))
  {
    match scratchedResult
    case None => MysteryPrize
    case Some(result) =>
      var image := result.prize.image;
      WonPrize(result.prize.text, if image.Some? && image.value != "" then image else None)
  }

  /** The component's state. `canvasHidden` is the canvas faded out and
      set to `display: none`; `reports` counts the `onScratchComplete` calls
      since the last `initCard`. */
  class ScratchCardCanvas {
    var scratchedPercentage: Option<real>
    var apiCalled: bool
    var canvasHidden: bool
    ghost var reports: nat

    /** The latch is closed exactly when the card has been reported, and
        then it has been reported once. */
    ghost predicate ReportedOnce()
      reads this
    {
      reports == if apiCalled then 1 else 0
    }

    constructor()
      ensures scratchedPercentage == Some(0.0) && !apiCalled && !canvasHidden
      ensures reports == 0 && ReportedOnce()
    {
      scratchedPercentage, apiCalled, canvasHidden := Some(0.0), false, false;
      reports := 0;
    }

    /** `checkScratchPercentage`: record the share scratched away and hide
        the canvas when it passes 60%. */
    method CheckScratchPercentage(pixels: array<byte>)
      modifies this
      ensures scratchedPercentage == ScratchedPercentage(old(pixels[..]))
      ensures canvasHidden == (old(canvasHidden) || HidesCanvas(scratchedPercentage))
      ensures apiCalled == old(apiCalled) && reports == old(reports)
    {
      var transparent := CountTransparent(pixels);
      var percentage: Option<real>;
      if pixels.Length == 0 {
        percentage := None;
      } else {
        percentage := Some((transparent as real / (pixels.Length as real / 4.0)) * 100.0);
      }
      scratchedPercentage := percentage;
      if percentage.Some? && percentage.value > 60.0 {
        canvasHidden := true;
      }
    }

    /** `scratch`: report the card on the first scratch since `initCard`,
        then measure the canvas (`pixels` is the buffer after the stroke). */
    method Scratch(pixels: array<byte>) returns (reported: bool)
      requires ReportedOnce()
      modifies this
      ensures reported <==> !old(apiCalled)
      ensures apiCalled
      ensures reports == old(reports) + (if reported then 1 else 0)
      ensures ReportedOnce() && reports == 1
      ensures scratchedPercentage == ScratchedPercentage(old(pixels[..]))
      ensures canvasHidden == (old(canvasHidden) || HidesCanvas(scratchedPercentage))
    {
      reported := false;
      if !apiCalled {
        apiCalled := true;
        reported := true;
        reports := reports + 1;
      }
      CheckScratchPercentage(pixels);
    }

    /** `initCard`: a fresh coating; the next scratch reports again. */
    method InitCard()
      modifies this
      ensures scratchedPercentage == Some(0.0) && !apiCalled && !canvasHidden
      ensures reports == 0 && ReportedOnce()
    {
      reports := 0;
      canvasHidden := false;
      scratchedPercentage := Some(0.0);
      apiCalled := false;
    }
  }
}
