/** The records of lib/types.ts, and the probability total that the
    prize draw, both card dialogs and the card list compute with
    `prizes.reduce((sum, prize) => sum + prize.probability, 0)`. */
module Types {
  import opened Wrappers
  import opened Seqs

  datatype User = User(
    id: string,
    isAdmin: bool,
    displayName: Option<string>,
    scratchResults: seq<ScratchResult>)

  /** `quantity` is `None` for the `null` the edit dialog writes for an
      unlimited prize; `id` and `results` are `None` on a prize drafted in a
      dialog and not yet saved. */
  datatype Prize = Prize(
    id: Option<string>,
    text: string,
    image: Option<string>,
    quantity: Option<int>,
    probability: real,
    scratchCardId: Option<string>,
    results: Option<seq<ScratchResult>>)

  datatype ScratchCard = ScratchCard(
    id: string,
    name: string,
    startTime: Option<string>,
    endTime: Option<string>,
    prizes: seq<Prize>,
    results: seq<ScratchResult>)

  datatype ScratchResult = ScratchResult(
    id: string,
    userId: string,
    scratchCardId: string,
    prizeId: string,
    user: User,
    scratchCard: ScratchCard,
    prize: Prize)

  /** The left-to-right `reduce` summing the prizes' probabilities from 0. */
  function TotalProbability(prizes: seq<Prize>): real {
    if prizes == [] then 0.0
    else TotalProbability(prizes[..|prizes| - 1]) + prizes[|prizes| - 1].probability
  }

  /** The badge turns red and the warning shows whenever the total is not exactly 1. */
  predicate ShowsProbabilityWarning(prizes: seq<Prize>) {
    TotalProbability(prizes) != 1.0
  }

  /** The total of a concatenation is the sum of the totals. */
  lemma {:induction false} TotalProbabilityAppend(a: seq<Prize>, b: seq<Prize>)
    ensures TotalProbability(a + b) == TotalProbability(a) + TotalProbability(b)
  {
    if b == [] {
      assert a + b == a;
    } else {
      var c := a + b;
      assert c[..|c| - 1] == a + b[..|b| - 1];
      TotalProbabilityAppend(a, b[..|b| - 1]);
    }
  }

  lemma TotalProbabilityCons(p: Prize, s: seq<Prize>)
    ensures TotalProbability([p] + s) == p.probability + TotalProbability(s)
  {
    TotalProbabilityAppend([p], s);
    assert [p][..0] == [];
  }

  predicate ProbabilitiesInRange(prizes: seq<Prize>) {
    forall i :: 0 <= i < |prizes| ==> 0.0 <= prizes[i].probability <= 1.0
  }

  predicate ProbabilitiesNonNegative(prizes: seq<Prize>) {
    forall i :: 0 <= i < |prizes| ==> 0.0 <= prizes[i].probability
  }

  /** With every probability in [0, 1], the total lies between 0 and the number of prizes. */
  lemma {:induction false} TotalProbabilityBounds(prizes: seq<Prize>)
    requires ProbabilitiesInRange(prizes)
    ensures 0.0 <= TotalProbability(prizes) <= |prizes| as real
  {
    if prizes != [] {
      TotalProbabilityBounds(prizes[..|prizes| - 1]);
    }
  }

  /** Removing the prize at `index` lowers the total by exactly its probability. */
  lemma {:induction false} TotalProbabilityRemoveIndex(prizes: seq<Prize>, index: int)
    requires 0 <= index < |prizes|
    ensures TotalProbability(RemoveIndex(prizes, index))
         == TotalProbability(prizes) - prizes[index].probability
  {
    var before, after := prizes[..index], prizes[index + 1..];
    assert prizes == before + ([prizes[index]] + after);
    TotalProbabilityAppend(before, [prizes[index]] + after);
    TotalProbabilityCons(prizes[index], after);
    TotalProbabilityAppend(before, after);
  }

  /** Splitting a prize list by any test splits its total: the probability
      mass of the kept prizes plus that of the dropped ones is the whole. */
  lemma {:induction false} TotalProbabilitySplit(prizes: seq<Prize>, f: Prize -> bool)
    ensures TotalProbability(prizes)
         == TotalProbability(Filter(prizes, f)) + TotalProbability(Filter(prizes, (p: Prize) => !f(p)))
  {
    var g := (p: Prize) => !f(p);
    if prizes != [] {
      var first, rest := prizes[0], prizes[1..];
      assert prizes == [first] + rest;
      TotalProbabilitySplit(rest, f);
      TotalProbabilityCons(first, rest);
      var kept, dropped := Filter(rest, f), Filter(rest, g);
      if f(first) {
        assert Filter(prizes, f) == [first] + kept;
        assert Filter(prizes, g) == dropped;
        TotalProbabilityCons(first, kept);
      } else {
        assert Filter(prizes, f) == kept;
        assert Filter(prizes, g) == [first] + dropped;
        TotalProbabilityCons(first, dropped);
      }
    }
  }

  /** Prefix sums of non-negative probabilities grow with the prefix. */
  lemma TotalProbabilityMonotone(prizes: seq<Prize>, j: nat, k: nat)
    requires j <= k <= |prizes|
    requires ProbabilitiesNonNegative(prizes)
    ensures TotalProbability(prizes[..j]) <= TotalProbability(prizes[..k])
  {
    assert prizes[..k] == prizes[..j] + prizes[j..k];
    TotalProbabilityAppend(prizes[..j], prizes[j..k]);
    TotalProbabilityNonNegative(prizes[j..k]);
  }

  lemma {:induction false} TotalProbabilityNonNegative(prizes: seq<Prize>)
    requires ProbabilitiesNonNegative(prizes)
    ensures 0.0 <= TotalProbability(prizes)
  {
    if prizes != [] {
      TotalProbabilityNonNegative(prizes[..|prizes| - 1]);
    }
  }
}
