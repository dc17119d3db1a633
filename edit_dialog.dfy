/** components/edit-scratch-card-dialog.tsx: the form that edits a saved
    card. Its prize draft has an "unlimited quantity" box, which stores the
    added prize's quantity as `null`. */
module EditDialog {
  import opened Wrappers
  import opened Seqs
  import opened Types
  import opened PrizeForm
  import opened PrizeSelection

  /** `addPrize`'s test: a prize name, a positive quantity unless the
      unlimited box is ticked, and a probability in [0, 1]. */
  predicate AcceptsDraft(draft: Prize, unlimited: bool) {
    draft.text != "" && (unlimited || QuantityPositive(draft.quantity))
    && ProbabilityInRange(draft.probability)
  }

  /** `{ ...newPrize, quantity: prizeQuantity }`: the draft, with a `null`
      quantity when the unlimited box is ticked. */
  function AddedPrize(draft: Prize, unlimited: bool): (p: Prize)
    ensures unlimited ==> p.quantity.None?
    ensures !unlimited ==> p == draft
    ensures p.(quantity := draft.quantity) == draft
  {
    draft.(quantity := if unlimited then None else draft.quantity)
  }

  /** The prize list after `addPrize`: one prize more at the end exactly when
      the draft is accepted, the earlier prizes untouched. */
  function PrizesAfterAdd(prizes: seq<Prize>, draft: Prize, unlimited: bool): (r: seq<Prize>)
    ensures |prizes| <= |r| <= |prizes| + 1 && r[..|prizes|] == prizes
    ensures |r| == |prizes| + 1 <==> AcceptsDraft(draft, unlimited)
    ensures |r| == |prizes| + 1 ==> r[|prizes|] == AddedPrize(draft, unlimited)
  {
    if AcceptsDraft(draft, unlimited) then prizes + [AddedPrize(draft, unlimited)] else prizes
  }

  /** Adding raises the total probability by exactly the draft's
      probability, and keeps every probability of the list in [0, 1]. */
  lemma AddPrizeTotal(prizes: seq<Prize>, draft: Prize, unlimited: bool)
    ensures TotalProbability(PrizesAfterAdd(prizes, draft, unlimited))
         == TotalProbability(prizes) + (if AcceptsDraft(draft, unlimited) then draft.probability else 0.0)
    ensures ProbabilitiesInRange(prizes) ==> ProbabilitiesInRange(PrizesAfterAdd(prizes, draft, unlimited))
  {
    if AcceptsDraft(draft, unlimited) {
      var added := AddedPrize(draft, unlimited);
      TotalProbabilityAppend(prizes, [added]);
      assert TotalProbability([added]) == TotalProbability([]) + added.probability;
    }
  }

  /** A prize added with the unlimited box ticked is stored with a `null`
      quantity, and the draw never hands out a prize whose quantity is
      `null`: such a prize can never be won, whatever its probability. */
  lemma UnlimitedPrizeIsNeverWon(draft: Prize, card: ScratchCard, rand: real)
    requires AcceptsDraft(draft, true)
    ensures AddedPrize(draft, true).quantity.None?
    ensures !InStock(AddedPrize(draft, true))
    ensures var r := SelectPrize(card, rand); r.success ==> r.prize.value.quantity.Some?
  {
    SelectPrizeWinsStockedPrize(card, rand);
  }

  /** The body of the `PUT /scratch_cards/{id}` request. */
  datatype UpdateRequest = UpdateRequest(
    cardId: string,
    name: string,
    prizes: seq<Prize>,
    startTime: Option<string>,
    endTime: Option<string>)

  /** An empty date-time input is sent as `null`; a filled one as its value.
      The field is never left out. */
  function TimeField(input: string): (t: Option<string>)
    ensures t.None? <==> input == ""
    ensures t.Some? ==> t.value == input
  {
    if input == "" then None else Some(input)
  }

  /** What `handleSubmit` sends: nothing without a name, without prizes or
      without a card being edited; otherwise the card's id with the form's
      name, prize list and both times. */
  function SubmitRequest(name: string, prizes: seq<Prize>, startTime: string, endTime: string,
                         cardToEdit: Option<ScratchCard>): (r: Option<UpdateRequest>)
    ensures r.None? <==> name == "" || prizes == [] || cardToEdit.None?
    ensures r.Some? ==>
      r.value.cardId == cardToEdit.value.id && r.value.name == name && r.value.prizes == prizes
      && (r.value.startTime.None? <==> startTime == "") && (r.value.endTime.None? <==> endTime == "")
      && r.value.startTime == TimeField(startTime) && r.value.endTime == TimeField(endTime)
  {
    if name == "" || |prizes| == 0 || cardToEdit.None? then None
    else Some(UpdateRequest(cardToEdit.value.id, name, prizes, TimeField(startTime), TimeField(endTime)))
  }

  /** The form's state. The plain inputs (name, times, prize text and image)
      write their field directly; the handlers with logic are methods. */
  class EditScratchCardDialog {
    var name: string
    var startTime: string
    var endTime: string
    var prizes: seq<Prize>
    var newPrize: Prize
    var isUnlimitedQuantity: bool
    var loading: bool

    constructor()
      ensures name == "" && startTime == "" && endTime == "" && prizes == []
      ensures newPrize == EmptyDraft && !isUnlimitedQuantity && !loading
    {
      name, startTime, endTime, prizes := "", "", "", [];
      newPrize, isUnlimitedQuantity, loading := EmptyDraft, false, false;
    }

    /** The effect run when `cardToEdit` changes: copy the card into the form,
        or clear the form when there is no card. A missing or empty time
        becomes the empty input. */
    method LoadCard(cardToEdit: Option<ScratchCard>)
      modifies this
      ensures cardToEdit.Some? ==>
        name == cardToEdit.value.name && prizes == cardToEdit.value.prizes
        && startTime == cardToEdit.value.startTime.GetOr("") && endTime == cardToEdit.value.endTime.GetOr("")
      ensures cardToEdit.None? ==> name == "" && startTime == "" && endTime == "" && prizes == []
      ensures newPrize == old(newPrize) && isUnlimitedQuantity == old(isUnlimitedQuantity) && loading == old(loading)
    {
      if cardToEdit.Some? {
        var card := cardToEdit.value;
        name := card.name;
        prizes := card.prizes;
        if card.startTime.Some? && card.startTime.value != "" {
          startTime := card.startTime.value;
        } else {
          startTime := "";
        }
        if card.endTime.Some? && card.endTime.value != "" {
          endTime := card.endTime.value;
        } else {
          endTime := "";
        }
      } else {
        name := "";
        startTime := "";
        endTime := "";
        prizes := [];
      }
    }

    /** `addPrize`: append the draft when it passes the test, then reset the
        draft and untick the unlimited box; otherwise change nothing. */
    method AddPrize()
      modifies this
      ensures prizes == PrizesAfterAdd(old(prizes), old(newPrize), old(isUnlimitedQuantity))
      ensures AcceptsDraft(old(newPrize), old(isUnlimitedQuantity)) ==> newPrize == EmptyDraft && !isUnlimitedQuantity
      ensures !AcceptsDraft(old(newPrize), old(isUnlimitedQuantity)) ==>
        newPrize == old(newPrize) && isUnlimitedQuantity == old(isUnlimitedQuantity)
      ensures name == old(name) && startTime == old(startTime) && endTime == old(endTime) && loading == old(loading)
    {
      var prizeQuantity := if isUnlimitedQuantity then None else newPrize.quantity;
      if newPrize.text != "" && (isUnlimitedQuantity || (newPrize.quantity.Some? && newPrize.quantity.value > 0))
         && newPrize.probability >= 0.0 && newPrize.probability <= 1.0 {
        prizes := prizes + [newPrize.(quantity := prizeQuantity)];
        newPrize := EmptyDraft;
        isUnlimitedQuantity := false;
      }
    }

    /** `removePrize`: drop the prize at `index`; an index outside the list
        removes nothing. */
    method RemovePrize(index: int)
      modifies this
      ensures prizes == RemoveIndex(old(prizes), index)
      ensures 0 <= index < |old(prizes)| ==>
        TotalProbability(prizes) == TotalProbability(old(prizes)) - old(prizes)[index].probability
      ensures name == old(name) && startTime == old(startTime) && endTime == old(endTime)
      ensures newPrize == old(newPrize) && isUnlimitedQuantity == old(isUnlimitedQuantity) && loading == old(loading)
    {
      if 0 <= index < |prizes| {
        TotalProbabilityRemoveIndex(prizes, index);
      }
      prizes := RemoveIndex(prizes, index);
    }

    /** The unlimited box: ticking it also sets the draft quantity to 0. */
    method SetUnlimited(checked: bool)
      modifies this
      ensures isUnlimitedQuantity == checked
      ensures newPrize == if checked then old(newPrize).(quantity := Some(0)) else old(newPrize)
      ensures name == old(name) && startTime == old(startTime) && endTime == old(endTime)
      ensures prizes == old(prizes) && loading == old(loading)
    {
      isUnlimitedQuantity := checked;
      if checked {
        newPrize := newPrize.(quantity := Some(0));
      }
    }

    /** The probability input: only a value in [0, 1] is taken. */
    method SetDraftProbability(value: real)
      modifies this
      ensures newPrize == ProbabilityInput(old(newPrize), value)
      ensures name == old(name) && startTime == old(startTime) && endTime == old(endTime)
      ensures prizes == old(prizes) && isUnlimitedQuantity == old(isUnlimitedQuantity) && loading == old(loading)
    {
      newPrize := ProbabilityInput(newPrize, value);
    }

    /** `handleSubmit`: the request sent (if any) and whether the dialog is
        closed. `requestOk` stands for the outcome of the `PUT`; the form
        keeps its contents either way and is no longer loading once a
        request was made. */
    method HandleSubmit(cardToEdit: Option<ScratchCard>, requestOk: bool)
      returns (request: Option<UpdateRequest>, closed: bool)
      modifies this
      ensures request == SubmitRequest(old(name), old(prizes), old(startTime), old(endTime), cardToEdit)
      ensures closed <==> request.Some? && requestOk
      ensures request.Some? ==> !loading
      ensures request.None? ==> loading == old(loading)
      ensures name == old(name) && startTime == old(startTime) && endTime == old(endTime) && prizes == old(prizes)
      ensures newPrize == old(newPrize) && isUnlimitedQuantity == old(isUnlimitedQuantity)
    {
      if name == "" || |prizes| == 0 || cardToEdit.None? {
        return None, false;
      }
      loading := true;
      var start := if startTime != "" then Some(startTime) else None;
      var end := if endTime != "" then Some(endTime) else None;
      request := Some(UpdateRequest(cardToEdit.value.id, name, prizes, start, end));
      closed := requestOk;
      loading := false;
    }
  }
}
