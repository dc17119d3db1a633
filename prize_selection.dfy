/** lib/prize-selection.ts: the client-side prize draw.

    The draw `Math.random()` is passed in as `rand`; the code scales it by the
    total weight itself, so the model keeps the product `rand * totalWeight`.
    All arithmetic is exact (`real`), so the floating-point rounding that the
    fallback guards against does not arise here. */
module PrizeSelection {
  import opened Wrappers
  import opened Seqs
  import opened Types

  /** The three failure tags; the draw itself never produces `ApiError`,
      which only the exception handler around it returns. */
  datatype ErrorKind = NoPrizes | OutOfStock | ApiError

  datatype SelectionError = SelectionError(kind: ErrorKind, message: string)

  datatype SelectionResult = SelectionResult(
    success: bool,
    prize: Option<Prize>,
    error: Option<SelectionError>)

  const NoPrizesMessage: string := "此刮刮卡沒有設置任何獎品"
  const OutOfStockMessage: string := "很抱歉，所有獎品都已領完！"
  const InvalidWeightsMessage: string := "獎品機率設置有誤"

  function Fail(kind: ErrorKind, message: string): SelectionResult {
    SelectionResult(false, None, Some(SelectionError(kind, message)))
  }

  function Win(p: Prize): SelectionResult {
    SelectionResult(true, Some(p), None)
  }

  /** `prize.results?.length || 0` */
  function UsedCount(p: Prize): nat {
    match p.results
    case None => 0
    case Some(rs) => |rs|
  }

  /** `prize.quantity - usedCount`; JavaScript coerces a `null` quantity to 0. */
  function RemainingStock(p: Prize): int {
    p.quantity.GetOr(0) - UsedCount(p)
  }

  predicate InStock(p: Prize) {
    RemainingStock(p) > 0
  }

  /** The eligible set: the prizes still in stock, in card order. */
  function AvailablePrizes(prizes: seq<Prize>): seq<Prize> {
    Filter(prizes, InStock)
  }

  /** The cumulative weight once prize `j` of the walk has been added. */
  function CumulativeWeight(ps: seq<Prize>, j: nat): real
    requires j < |ps|
  {
    TotalProbability(ps[..j + 1])
  }

  /** Where the cumulative walk stops for draw value `x`: the first prize whose
      probability covers what is left of `x`, or else the last prize. */
  function DrawIndex(ps: seq<Prize>, x: real): (k: nat)
    requires |ps| > 0
    ensures k < |ps|
  {
    if |ps| == 1 || x <= ps[0].probability then 0
    else 1 + DrawIndex(ps[1..], x - ps[0].probability)
  }

  /** `Math.random() * totalWeight`: the draw scaled to the eligible weight. */
  function DrawValue(rand: real, totalWeight: real): real {
    rand * totalWeight
  }

  /** The outcome `selectPrizeForUser` returns for the card and the draw `rand`. */
  function SelectPrize(card: ScratchCard, rand: real): SelectionResult {
    if |card.prizes| == 0 then Fail(NoPrizes, NoPrizesMessage)
    else DrawAmong(AvailablePrizes(card.prizes), rand)
  }

  /** Steps 3 to 6 of the draw, once the card is known to have prizes. */
  function DrawAmong(available: seq<Prize>, rand: real): SelectionResult {
    if |available| == 0 then Fail(OutOfStock, OutOfStockMessage)
    else
      var totalWeight := TotalProbability(available);
      if totalWeight <= 0.0 then Fail(NoPrizes, InvalidWeightsMessage)
      else Win(available[DrawIndex(available, DrawValue(rand, totalWeight))])
  }

  /** The draw as the source runs it: a walk accumulating weight, returning
      at the first prize whose cumulative weight reaches the draw value, and
      falling back to the last eligible prize. */
  method SelectPrizeForUser(card: ScratchCard, rand: real) returns (result: SelectionResult)
    ensures result == SelectPrize(card, rand)
  {
    if |card.prizes| == 0 {
      return Fail(NoPrizes, NoPrizesMessage);
    }
    var available := AvailablePrizes(card.prizes);
    if |available| == 0 {
      return Fail(OutOfStock, OutOfStockMessage);
    }
    var totalWeight := TotalProbability(available);
    if totalWeight <= 0.0 {
      return Fail(NoPrizes, InvalidWeightsMessage);
    }
    var randomValue := rand * totalWeight;
    assert randomValue == DrawValue(rand, totalWeight);
    SelectPrizeWin(card, rand);
    var prize := WalkCumulativeWeight(available, randomValue);
    return Win(prize);
  }

  /** Step 6 of the draw: accumulate the eligible prizes' probabilities in
      order and stop at the first prize whose cumulative weight reaches the
      draw value; if none does, take the last eligible prize. */
  method WalkCumulativeWeight(available: seq<Prize>, randomValue: real) returns (prize: Prize)
    requires |available| > 0
    ensures prize == available[DrawIndex(available, randomValue)]
  {
    var cumulativeWeight := 0.0;
    for i := 0 to |available|
      invariant cumulativeWeight == TotalProbability(available[..i])
      invariant forall j :: 0 <= j < i ==> randomValue > CumulativeWeight(available, j)
    {
      CumulativeWeightStep(available, i);
      cumulativeWeight := cumulativeWeight + available[i].probability;
      if randomValue <= cumulativeWeight {
        DrawIndexFirstCovering(available, randomValue, i);
        return available[i];
      }
    }
    DrawIndexFallback(available, randomValue);
    return available[|available| - 1];
  }

  /** With stock and positive weight left, the outcome is the prize the walk stops at. */
  lemma SelectPrizeWin(card: ScratchCard, rand: real)
    requires |AvailablePrizes(card.prizes)| > 0 && TotalProbability(AvailablePrizes(card.prizes)) > 0.0
    ensures var available := AvailablePrizes(card.prizes);
      SelectPrize(card, rand)
        == Win(available[DrawIndex(available, DrawValue(rand, TotalProbability(available)))])
  {
  }

  lemma CumulativeWeightStep(ps: seq<Prize>, i: nat)
    requires i < |ps|
    ensures CumulativeWeight(ps, i) == TotalProbability(ps[..i]) + ps[i].probability
  {
    assert ps[..i + 1][..i] == ps[..i];
  }

  /** Dropping the first prize shifts every later cumulative weight down by its probability. */
  lemma CumulativeWeightTail(ps: seq<Prize>, j: nat)
    requires j < |ps|
    ensures j == 0 ==> CumulativeWeight(ps, j) == ps[0].probability
    ensures j > 0 ==> CumulativeWeight(ps, j) == ps[0].probability + CumulativeWeight(ps[1..], j - 1)
  {
    assert ps[..j + 1] == [ps[0]] + ps[1..][..j];
    TotalProbabilityCons(ps[0], ps[1..][..j]);
    assert ps[1..][..0] == [];
  }

  /** The walk stops at `k` whenever `k` is the first prize whose cumulative
      weight reaches `x`. */
  lemma {:induction false} DrawIndexFirstCovering(ps: seq<Prize>, x: real, k: nat)
    requires k < |ps|
    requires x <= CumulativeWeight(ps, k)
    requires forall j :: 0 <= j < k ==> x > CumulativeWeight(ps, j)
    ensures DrawIndex(ps, x) == k
  {
    CumulativeWeightTail(ps, 0);
    if k > 0 {
      assert x > ps[0].probability;
      CumulativeWeightTail(ps, k);
      forall j | 0 <= j < k - 1
        ensures x - ps[0].probability > CumulativeWeight(ps[1..], j)
      {
        CumulativeWeightTail(ps, j + 1);
      }
      DrawIndexFirstCovering(ps[1..], x - ps[0].probability, k - 1);
    }
  }

  /** When no cumulative weight reaches `x`, the walk ends on the last prize. */
  lemma {:induction false} DrawIndexFallback(ps: seq<Prize>, x: real)
    requires |ps| > 0
    requires forall j :: 0 <= j < |ps| ==> x > CumulativeWeight(ps, j)
    ensures DrawIndex(ps, x) == |ps| - 1
  {
    CumulativeWeightTail(ps, 0);
    if |ps| > 1 {
      assert x > ps[0].probability;
      forall j | 0 <= j < |ps| - 1
        ensures x - ps[0].probability > CumulativeWeight(ps[1..], j)
      {
        CumulativeWeightTail(ps, j + 1);
      }
      DrawIndexFallback(ps[1..], x - ps[0].probability);
    }
  }

  /** When some cumulative weight reaches `x`, the walk stops at the first
      such prize: the fallback is not taken. */
  lemma {:induction false} DrawIndexCovers(ps: seq<Prize>, x: real, j: nat)
    requires j < |ps| && x <= CumulativeWeight(ps, j)
    ensures x <= CumulativeWeight(ps, DrawIndex(ps, x))
    ensures forall i :: 0 <= i < DrawIndex(ps, x) ==> x > CumulativeWeight(ps, i)
  {
    CumulativeWeightTail(ps, 0);
    if x > ps[0].probability {
      assert j > 0 && |ps| > 1;
      CumulativeWeightTail(ps, j);
      DrawIndexCovers(ps[1..], x - ps[0].probability, j - 1);
      var k := DrawIndex(ps[1..], x - ps[0].probability);
      assert DrawIndex(ps, x) == k + 1;
      CumulativeWeightTail(ps, k + 1);
      forall i | 0 <= i < k + 1
        ensures x > CumulativeWeight(ps, i)
      {
        CumulativeWeightTail(ps, i);
      }
    }
  }

  /** The whole walk reaches the total weight. */
  lemma CumulativeWeightLast(ps: seq<Prize>)
    requires |ps| > 0
    ensures CumulativeWeight(ps, |ps| - 1) == TotalProbability(ps)
  {
    assert ps[..|ps|] == ps;
  }

  /** With non-negative weights and a draw value in [0, total], prize `k` is
      chosen exactly for the values above the cumulative weight before `k`
      (from 0 inclusive for the first prize) up to the cumulative weight
      through `k`: an interval whose length is `k`'s own probability, so each
      eligible prize wins in proportion to its weight among the eligible prizes. */
  lemma DrawIndexInterval(ps: seq<Prize>, x: real, k: nat)
    requires k < |ps|
    requires ProbabilitiesNonNegative(ps)
    requires 0.0 <= x <= TotalProbability(ps)
    ensures DrawIndex(ps, x) == k
        <==> (k == 0 || CumulativeWeight(ps, k - 1) < x) && x <= CumulativeWeight(ps, k)
    ensures k == 0 ==> CumulativeWeight(ps, k) == ps[k].probability
    ensures k > 0 ==> CumulativeWeight(ps, k) - CumulativeWeight(ps, k - 1) == ps[k].probability
  {
    CumulativeWeightStep(ps, k);
    CumulativeWeightTail(ps, 0);
    if k > 0 {
      assert ps[..k] == ps[..(k - 1) + 1];
    }
    CumulativeWeightLast(ps);
    DrawIndexCovers(ps, x, |ps| - 1);
    var d := DrawIndex(ps, x);
    if (k == 0 || CumulativeWeight(ps, k - 1) < x) && x <= CumulativeWeight(ps, k) {
      forall j | 0 <= j < k
        ensures x > CumulativeWeight(ps, j)
      {
        TotalProbabilityMonotone(ps, j + 1, k);
      }
      DrawIndexFirstCovering(ps, x, k);
    }
  }

  /** Exactly one of `prize` and `error` is set, `success` says which, and
      the draw never reports `api_error`. */
  lemma SelectPrizeShape(card: ScratchCard, rand: real)
    ensures var r := SelectPrize(card, rand);
      (r.success <==> r.prize.Some?) && (r.success <==> r.error.None?)
      && (r.error.Some? ==> r.error.value.kind != ApiError)
  {
  }

  lemma AvailableEmpty(prizes: seq<Prize>)
    ensures |AvailablePrizes(prizes)| == 0 <==> forall i :: 0 <= i < |prizes| ==> !InStock(prizes[i])
  {
    var a := AvailablePrizes(prizes);
    if |a| > 0 {
      assert a[0] in a;
      var i :| 0 <= i < |prizes| && prizes[i] == a[0];
    }
  }

  /** Each failure tag arises exactly in its case: `no_prizes` for an empty
      card and, reusing the tag, for eligible weights summing to at most 0;
      `out_of_stock` when no prize has stock left; success otherwise. */
  lemma SelectPrizeOutcomes(card: ScratchCard, rand: real)
    ensures var r := SelectPrize(card, rand);
      var prizes := card.prizes;
      var stocked := exists i :: 0 <= i < |prizes| && InStock(prizes[i]);
      var weight := TotalProbability(AvailablePrizes(prizes));
      (r.error.Some? && r.error.value.kind == OutOfStock <==> |prizes| > 0 && !stocked)
      && (r.error.Some? && r.error.value.kind == NoPrizes <==> |prizes| == 0 || (stocked && weight <= 0.0))
      && (r.success <==> stocked && weight > 0.0)
      && (|prizes| == 0 ==> r.error == Some(SelectionError(NoPrizes, NoPrizesMessage)))
      && (stocked && weight <= 0.0 ==> r.error == Some(SelectionError(NoPrizes, InvalidWeightsMessage)))
  {
    AvailableEmpty(card.prizes);
  }

  /** A won prize is always one of the card's prizes with stock left; a
      depleted prize, or one whose quantity is `null`, is never handed out. */
  lemma SelectPrizeWinsStockedPrize(card: ScratchCard, rand: real)
    ensures var r := SelectPrize(card, rand);
      r.success ==>
        (r.prize.value in card.prizes && InStock(r.prize.value)
          && r.prize.value.quantity.Some? && r.prize.value.quantity.value > UsedCount(r.prize.value))
  {
  }

  /** For a draw in [0, 1), the winner is the first eligible prize whose
      cumulative weight reaches `rand * totalWeight`; the last-prize fallback
      is never needed, as the source's comment claims. */
  lemma SelectPrizeCumulativeRule(card: ScratchCard, rand: real)
    requires 0.0 <= rand < 1.0
    ensures var r := SelectPrize(card, rand);
      var available := AvailablePrizes(card.prizes);
      var x := DrawValue(rand, TotalProbability(available));
      r.success ==>
        (exists k :: 0 <= k < |available| && r.prize.value == available[k]
          && x <= CumulativeWeight(available, k)
          && forall j :: 0 <= j < k ==> x > CumulativeWeight(available, j))
  {
    var available := AvailablePrizes(card.prizes);
    var total := TotalProbability(available);
    if |card.prizes| > 0 && |available| > 0 && total > 0.0 {
      var x := DrawValue(rand, total);
      assert total - x == (1.0 - rand) * total;
      assert x <= total;
      CumulativeWeightLast(available);
      DrawIndexCovers(available, x, |available| - 1);
      var k := DrawIndex(available, x);
      assert SelectPrize(card, rand) == Win(available[k]);
    }
  }

  /** A draw of exactly 0 wins the first eligible prize, even one of probability 0,
      because the test is `randomValue <= cumulativeWeight`. */
  lemma SelectPrizeZeroDraw(card: ScratchCard)
    requires var a := AvailablePrizes(card.prizes); |a| > 0 && a[0].probability >= 0.0
    ensures var r := SelectPrize(card, 0.0);
      r.success ==> r.prize == Some(AvailablePrizes(card.prizes)[0])
  {
  }

  /** Depleted prizes take no part in the draw: removing them from the card
      gives the same outcome for every draw, so their probability mass is
      shared among the eligible prizes in proportion to their weights. */
  lemma SelectPrizeIgnoresDepleted(card: ScratchCard, rand: real)
    requires |AvailablePrizes(card.prizes)| > 0
    ensures SelectPrize(card.(prizes := AvailablePrizes(card.prizes)), rand) == SelectPrize(card, rand)
  {
    var available := AvailablePrizes(card.prizes);
    FilterIdempotent(card.prizes, InStock);
    var eligibleOnly := card.(prizes := available);
    assert AvailablePrizes(eligibleOnly.prizes) == available;
    assert SelectPrize(eligibleOnly, rand) == DrawAmong(available, rand);
  }

  /** One row of `getPrizeStock`. */
  datatype StockEntry = StockEntry(prize: Prize, remaining: int, used: nat)

  function StockOf(p: Prize): StockEntry {
    StockEntry(p, if RemainingStock(p) > 0 then RemainingStock(p) else 0, UsedCount(p))
  }

  /** `getPrizeStock`: one entry per prize, in card order. */
  function PrizeStock(card: ScratchCard): (stock: seq<StockEntry>)
    ensures |stock| == |card.prizes|
    ensures forall i :: 0 <= i < |stock| ==> stock[i].prize == card.prizes[i] && stock[i].remaining >= 0
  {
    seq(|card.prizes|, i requires 0 <= i < |card.prizes| => StockOf(card.prizes[i]))
  }

  /** The stock report agrees with the draw: an entry shows stock left exactly
      when the draw treats the prize as eligible, `used` is the number of its
      results, a prize drawn past its quantity (or with a `null` quantity)
      shows 0, and a card whose entries all show 0 gets `out_of_stock`. */
  lemma PrizeStockAgreesWithDraw(card: ScratchCard, rand: real)
    ensures var stock := PrizeStock(card);
      (forall i :: 0 <= i < |stock| ==>
        stock[i].used == UsedCount(card.prizes[i])
        && (stock[i].remaining > 0 <==> InStock(card.prizes[i]))
        && (stock[i].remaining > 0 ==> stock[i].remaining == card.prizes[i].quantity.value - stock[i].used)
        && (card.prizes[i].quantity.None? ==> stock[i].remaining == 0))
      && (|stock| > 0 && (forall i :: 0 <= i < |stock| ==> stock[i].remaining == 0)
          <==> SelectPrize(card, rand).error.Some? && SelectPrize(card, rand).error.value.kind == OutOfStock)
  {
    SelectPrizeOutcomes(card, rand);
  }

  // Worked cases of the rules above, on small cards.

  function SampleResult(prizeText: string): ScratchResult {
    var user := User("u1", false, None, []);
    var card := ScratchCard("c1", "card", None, None, [], []);
    var prize := Prize(None, prizeText, None, None, 0.0, None, None);
    ScratchResult("r1", "u1", "c1", prizeText, user, card, prize)
  }

  function SamplePrize(text: string, quantity: Option<int>, used: nat, probability: real): (p: Prize)
    ensures UsedCount(p) == used
  {
    Prize(Some(text), text, None, quantity, probability, Some("c1"), Some(seq(used, _ => SampleResult(text))))
  }

  function SampleCard(prizes: seq<Prize>): ScratchCard {
    ScratchCard("c1", "card", None, None, prizes, [])
  }

  /** A single prize of quantity 1 is won by the first play and is out of
      stock once one result has been recorded against it. */
  lemma SingleUnitPrizeRunsOut(rand: real)
    ensures var unplayed := SamplePrize("A", Some(1), 0, 1.0);
      SelectPrize(SampleCard([unplayed]), rand) == Win(unplayed)
    ensures var used := SamplePrize("A", Some(1), 1, 1.0);
      SelectPrize(SampleCard([used]), rand) == Fail(OutOfStock, OutOfStockMessage)
  {
    var unplayed := SamplePrize("A", Some(1), 0, 1.0);
    assert AvailablePrizes([unplayed]) == [unplayed];
    assert TotalProbability([unplayed]) == 1.0 by {
      TotalProbabilityCons(unplayed, []);
    }
    var used := SamplePrize("A", Some(1), 1, 1.0);
    assert AvailablePrizes([used]) == [];
  }

  /** A prize whose quantity is `null` (the edit dialog's "unlimited") is
      treated as having no stock, however few results it has. */
  lemma NullQuantityPrizeIsOutOfStock(used: nat, probability: real, rand: real)
    ensures var unlimited := SamplePrize("A", None, used, probability);
      SelectPrize(SampleCard([unlimited]), rand) == Fail(OutOfStock, OutOfStockMessage)
  {
    var unlimited := SamplePrize("A", None, used, probability);
    assert AvailablePrizes([unlimited]) == [];
  }

  /** Prizes A (0.5, depleted), B (0.3) and C (0.2): the weight is shared
      between B and C only, so B wins for draws up to 0.6 and C above. */
  lemma DepletedWeightIsRedistributed(rand: real)
    requires 0.0 <= rand < 1.0
    ensures var a := SamplePrize("A", Some(1), 1, 0.5);
      var b := SamplePrize("B", Some(10), 0, 0.3);
      var c := SamplePrize("C", Some(10), 0, 0.2);
      var r := SelectPrize(SampleCard([a, b, c]), rand);
      r == (if rand <= 0.6 then Win(b) else Win(c))
  {
    var a := SamplePrize("A", Some(1), 1, 0.5);
    var b := SamplePrize("B", Some(10), 0, 0.3);
    var c := SamplePrize("C", Some(10), 0, 0.2);
    AvailableSkipsDepleted(a, b, c);
    assert TotalProbability([b, c]) == 0.5 by {
      TotalProbabilityCons(b, [c]);
      TotalProbabilityCons(c, []);
    }
    assert SelectPrize(SampleCard([a, b, c]), rand) == DrawAmong([b, c], rand);
    assert DrawValue(rand, 0.5) == rand * 0.5;
    assert [b, c][1..] == [c];
  }

  lemma AvailableSkipsDepleted(a: Prize, b: Prize, c: Prize)
    requires !InStock(a) && InStock(b) && InStock(c)
    ensures AvailablePrizes([a, b, c]) == [b, c]
  {
    assert [c][1..] == [];
    assert Filter([c], InStock) == [c];
    assert [b, c][1..] == [c];
    assert Filter([b, c], InStock) == [b, c];
    assert [a, b, c][1..] == [b, c];
  }
}
