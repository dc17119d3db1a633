/** app/admin/scratch-cards/page.tsx: the admin list of cards, with local
    deletion, the edit button and the per-card probability badge. */
module ScratchCardsPage {
  import opened Wrappers
  import opened Seqs
  import opened Types
  import opened PrizeSelection

  /** `cards.filter((card) => card.id !== cardId)` */
  function WithoutCard(cards: seq<ScratchCard>, cardId: string): (r: seq<ScratchCard>)
    ensures |r| <= |cards|
    ensures forall c | c in r :: c in cards && c.id != cardId
    ensures forall i :: 0 <= i < |cards| && cards[i].id != cardId ==> cards[i] in r
  {
    Filter(cards, (c: ScratchCard) => c.id != cardId)
  }

  predicate UniqueIds(cards: seq<ScratchCard>) {
    forall i, j :: 0 <= i < j < |cards| ==> cards[i].id != cards[j].id
  }

  /** With ids unique, deleting a listed card removes exactly that position
      and keeps the other cards in order; deleting an id not in the list
      changes nothing. */
  lemma WithoutCardRemovesOne(cards: seq<ScratchCard>, cardId: string)
    requires UniqueIds(cards)
    ensures forall i :: 0 <= i < |cards| && cards[i].id == cardId ==>
      WithoutCard(cards, cardId) == cards[..i] + cards[i + 1..]
    ensures (forall i :: 0 <= i < |cards| ==> cards[i].id != cardId) ==> WithoutCard(cards, cardId) == cards
  {
    var keep := (c: ScratchCard) => c.id != cardId;
    forall i | 0 <= i < |cards| && cards[i].id == cardId
      ensures WithoutCard(cards, cardId) == cards[..i] + cards[i + 1..]
    {
      FilterDropsSingle(cards, keep, i);
    }
    FilterKeepsAll(cards, keep);
  }

  /** When the badge shows no warning (the total is exactly 1) and every
      prize still has stock, the percentages it lists are the real odds: a
      draw `rand` in [0, 1) wins prize `k` exactly when `rand` falls in
      `k`'s slice of [0, 1], whose width is `k`'s probability. */
  lemma NoWarningMeansShownOdds(card: ScratchCard, rand: real, k: nat)
    requires !ShowsProbabilityWarning(card.prizes)
    requires forall i :: 0 <= i < |card.prizes| ==> InStock(card.prizes[i])
    requires ProbabilitiesNonNegative(card.prizes)
    requires 0.0 <= rand < 1.0 && k < |card.prizes|
    ensures SelectPrize(card, rand) == Win(card.prizes[DrawIndex(card.prizes, rand)])
    ensures DrawIndex(card.prizes, rand) == k
        <==> (k == 0 || CumulativeWeight(card.prizes, k - 1) < rand) && rand <= CumulativeWeight(card.prizes, k)
  {
    FilterKeepsAll(card.prizes, InStock);
    assert AvailablePrizes(card.prizes) == card.prizes;
    assert DrawValue(rand, TotalProbability(card.prizes)) == rand;
    DrawIndexInterval(card.prizes, rand, k);
  }

  class ScratchCardsPage {
    var scratchCards: seq<ScratchCard>
    var cardToEdit: Option<ScratchCard>
    var showEditDialog: bool

    constructor()
      ensures scratchCards == [] && cardToEdit.None? && !showEditDialog
    {
      scratchCards, cardToEdit, showEditDialog := [], None, false;
    }

    /** `deleteScratchCard`: after the confirmation and a successful
        `DELETE`, drop the cards with that id; a cancelled confirmation or a
        failed request leaves the list as it was. */
    method DeleteScratchCard(cardId: string, confirmed: bool, requestOk: bool)
      modifies this
      ensures confirmed && requestOk ==> scratchCards == WithoutCard(old(scratchCards), cardId)
      ensures !(confirmed && requestOk) ==> scratchCards == old(scratchCards)
      ensures cardToEdit == old(cardToEdit) && showEditDialog == old(showEditDialog)
    {
      if !confirmed {
        return;
      }
      if requestOk {
        scratchCards := Filter(scratchCards, (card: ScratchCard) => card.id != cardId);
      }
    }

    /** `handleEditClick`: select the card and open the edit dialog. */
    method HandleEditClick(card: ScratchCard)
      modifies this
      ensures cardToEdit == Some(card) && showEditDialog
      ensures scratchCards == old(scratchCards)
    {
      cardToEdit := Some(card);
      showEditDialog := true;
    }
  }
}
