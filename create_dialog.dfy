/** components/create-scratch-card-dialog.tsx: the form that creates a new
    card. Unlike the edit dialog it has no unlimited option, so every prize
    it lists has passed the add test. */
module CreateDialog {
  import opened Wrappers
  import opened Seqs
  import opened Types
  import opened PrizeForm

  /** `addPrize`'s test: a prize name, a positive quantity and a
      probability in [0, 1]. */
  predicate AcceptsDraft(draft: Prize) {
    draft.text != "" && QuantityPositive(draft.quantity) && ProbabilityInRange(draft.probability)
  }

  /** The prize list after `addPrize`: the draft as it is, appended exactly
      when it passes the test. */
  function PrizesAfterAdd(prizes: seq<Prize>, draft: Prize): (r: seq<Prize>)
    ensures |prizes| <= |r| <= |prizes| + 1 && r[..|prizes|] == prizes
    ensures |r| == |prizes| + 1 <==> AcceptsDraft(draft)
    ensures |r| == |prizes| + 1 ==> r[|prizes|] == draft
  {
    if AcceptsDraft(draft) then prizes + [draft] else prizes
  }

  /** Every prize of the list passed the add test. */
  predicate AllAccepted(prizes: seq<Prize>) {
    forall i :: 0 <= i < |prizes| ==> AcceptsDraft(prizes[i])
  }

  /** Adding keeps every listed prize accepted, and raises the total by the
      draft's probability exactly when the draft is taken. */
  lemma AddPrizeKeepsAccepted(prizes: seq<Prize>, draft: Prize)
    requires AllAccepted(prizes)
    ensures AllAccepted(PrizesAfterAdd(prizes, draft))
    ensures TotalProbability(PrizesAfterAdd(prizes, draft))
         == TotalProbability(prizes) + (if AcceptsDraft(draft) then draft.probability else 0.0)
  {
    if AcceptsDraft(draft) {
      TotalProbabilityAppend(prizes, [draft]);
      assert TotalProbability([draft]) == TotalProbability([]) + draft.probability;
    }
  }

  /** Removing keeps every remaining prize accepted. */
  lemma RemovePrizeKeepsAccepted(prizes: seq<Prize>, index: int)
    requires AllAccepted(prizes)
    ensures AllAccepted(RemoveIndex(prizes, index))
  {
    var r := RemoveIndex(prizes, index);
    if 0 <= index < |prizes| {
      forall i | 0 <= i < |r| ensures AcceptsDraft(r[i]) {
        if i < index {
          assert r[i] == prizes[i];
        } else {
          assert r[i] == prizes[i + 1];
        }
      }
    }
  }

  /** With every listed prize accepted, the total shown on the badge lies
      between 0 and the number of prizes, and every prize has stock to give. */
  lemma AcceptedTotalBounds(prizes: seq<Prize>)
    requires AllAccepted(prizes)
    ensures 0.0 <= TotalProbability(prizes) <= |prizes| as real
    ensures forall i :: 0 <= i < |prizes| ==> prizes[i].quantity.Some? && prizes[i].quantity.value >= 1
  {
    assert ProbabilitiesInRange(prizes);
    TotalProbabilityBounds(prizes);
  }

  /** The body of the `POST /scratch_cards` request: the name and the prizes only. */
  datatype CreateRequest = CreateRequest(name: string, prizes: seq<Prize>)

  /** What `handleSubmit` sends: nothing without a name or without prizes. */
  function SubmitRequest(name: string, prizes: seq<Prize>): (r: Option<CreateRequest>)
    ensures r.None? <==> name == "" || prizes == []
    ensures r.Some? ==> r.value.name == name && r.value.prizes == prizes
  {
    if name == "" || |prizes| == 0 then None else Some(CreateRequest(name, prizes))
  }

  class CreateScratchCardDialog {
    var name: string
    var prizes: seq<Prize>
    var newPrize: Prize
    var loading: bool

    /** The form's invariant: every listed prize passed the add test and the
        draft's probability is in [0, 1]. */
    predicate Valid()
      reads this
    {
      AllAccepted(prizes) && ProbabilityInRange(newPrize.probability)
    }

    constructor()
      ensures Valid()
      ensures name == "" && prizes == [] && newPrize == EmptyDraft && !loading
    {
      name, prizes, newPrize, loading := "", [], EmptyDraft, false;
    }

    /** `addPrize`: append the draft when it passes the test and reset it;
        otherwise change nothing. */
    method AddPrize()
      requires Valid()
      modifies this
      ensures Valid()
      ensures prizes == PrizesAfterAdd(old(prizes), old(newPrize))
      ensures newPrize == if AcceptsDraft(old(newPrize)) then EmptyDraft else old(newPrize)
      ensures name == old(name) && loading == old(loading)
    {
      AddPrizeKeepsAccepted(prizes, newPrize);
      if newPrize.text != "" && newPrize.quantity.Some? && newPrize.quantity.value > 0
         && newPrize.probability >= 0.0 && newPrize.probability <= 1.0 {
        prizes := prizes + [newPrize];
        newPrize := EmptyDraft;
      }
    }

    /** `removePrize`: drop the prize at `index`, keeping the others in order. */
    method RemovePrize(index: int)
      requires Valid()
      modifies this
      ensures Valid()
      ensures prizes == RemoveIndex(old(prizes), index)
      ensures name == old(name) && newPrize == old(newPrize) && loading == old(loading)
    {
      RemovePrizeKeepsAccepted(prizes, index);
      prizes := RemoveIndex(prizes, index);
    }

    /** The probability input: only a value in [0, 1] is taken. */
    method SetDraftProbability(value: real)
      requires Valid()
      modifies this
      ensures Valid()
      ensures newPrize == ProbabilityInput(old(newPrize), value)
      ensures name == old(name) && prizes == old(prizes) && loading == old(loading)
    {
      newPrize := ProbabilityInput(newPrize, value);
    }

    /** `handleSubmit`: the request sent (if any). `requestOk` stands for the
        outcome of the `POST`; on success the name and prizes are cleared,
        on failure they are kept, and loading ends either way. */
    method HandleSubmit(requestOk: bool) returns (request: Option<CreateRequest>, closed: bool)
      requires Valid()
      modifies this
      ensures Valid()
      ensures request == SubmitRequest(old(name), old(prizes))
      ensures closed <==> request.Some? && requestOk
      ensures request.Some? && requestOk ==> name == "" && prizes == []
      ensures !(request.Some? && requestOk) ==> name == old(name) && prizes == old(prizes)
      ensures request.Some? ==> !loading
      ensures request.None? ==> loading == old(loading)
      ensures newPrize == old(newPrize)
    {
      if name == "" || |prizes| == 0 {
        return None, false;
      }
      loading := true;
      request := Some(CreateRequest(name, prizes));
      closed := requestOk;
      if requestOk {
        name := "";
        prizes := [];
      }
      loading := false;
    }
  }
}
