/** The prize draft both card dialogs edit before adding it to the list:
    components/create-scratch-card-dialog.tsx and
    components/edit-scratch-card-dialog.tsx keep it in a `Prize` state
    variable and share the same reset value and probability-input rule. */
module PrizeForm {
  import opened Wrappers
  import opened Types

  /** `{ text: "", image: "", quantity: 0, probability: 0 }` */
  const EmptyDraft: Prize := Prize(None, "", Some(""), Some(0), 0.0, None, None)

  /** `quantity > 0` as JavaScript evaluates it: `null > 0` is false. */
  predicate QuantityPositive(quantity: Option<int>) {
    quantity.Some? && quantity.value > 0
  }

  predicate ProbabilityInRange(p: real) {
    0.0 <= p <= 1.0
  }

  /** The probability input's `onChange`: a value in [0, 1] replaces the
      draft's probability, any other value is ignored. */
  function ProbabilityInput(draft: Prize, value: real): (d: Prize)
    ensures ProbabilityInRange(value) ==> d.probability == value
    ensures !ProbabilityInRange(value) ==> d == draft
    ensures d.(probability := draft.probability) == draft
  {
    if ProbabilityInRange(value) then draft.(probability := value) else draft
  }
}
