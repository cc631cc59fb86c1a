/** The substitution dialog (frontend/src/components/IngredientAlternativesModal.tsx): its
    one piece of state, the selected alternative, the handlers that change it, and when
    each part of the dialog is shown. */
module AlternativesModal {
  import opened Wrappers
  import opened Types

  datatype Alternative = Alternative(name: string, explanation: string)

  /** The alternatives offered for one ingredient. */
  datatype AlternativesResponse = AlternativesResponse(ingredient: string, isOptional: bool, alternatives: seq<Alternative>)

  /** The arguments passed to `onSelectSubstitute`. */
  datatype Substitution = Substitution(original: string, substitute: string)

  /** The confirm handler's guard: a response, a selection that is not empty, and a
      substitution callback. */
  predicate CanConfirm(response: Option<AlternativesResponse>, selected: Option<string>, hasCallback: bool) {
    response.Some? && TruthyText(selected) && hasCallback
  }

  /** The "Use" button: the response lists alternatives, one is selected and a callback
      is given. */
  predicate ShowsUse(response: Option<AlternativesResponse>, selected: Option<string>, hasCallback: bool) {
    response.Some? && |response.value.alternatives| > 0 && TruthyText(selected) && hasCallback
  }

  /** The "Skip" button: the response marks the ingredient optional. */
  predicate ShowsSkip(response: Option<AlternativesResponse>) {
    response.Some? && response.value.isOptional
  }

  /** The "no suitable alternatives" message: loading is over and the response neither
      marks the ingredient optional nor lists any alternative. */
  predicate ShowsNoAlternatives(loading: bool, response: Option<AlternativesResponse>) {
    !loading && response.Some? && !response.value.isOptional && |response.value.alternatives| == 0
  }

  /** Pressing "Use" always substitutes; while the "no alternatives" message shows, neither
      "Use" nor "Skip" is offered. */
  lemma UseConfirms(loading: bool, response: Option<AlternativesResponse>, selected: Option<string>, hasCallback: bool)
    ensures ShowsUse(response, selected, hasCallback) ==> CanConfirm(response, selected, hasCallback)
    ensures ShowsNoAlternatives(loading, response) ==> !ShowsUse(response, selected, hasCallback) && !ShowsSkip(response)
  {
  }

  class AlternativesModal {
    var selectedAlternative: Option<string>

    constructor()
      ensures selectedAlternative == None
    {
      selectedAlternative := None;
    }

    method HandleSelectAlternative(alternativeName: string)
      modifies this
      ensures selectedAlternative == Some(alternativeName)
    {
      selectedAlternative := Some(alternativeName);
    }

    /** Confirming hands (ingredient, selection) to the callback, clears the selection and
      closes, when the guard holds; otherwise it does nothing. */
    method HandleConfirmSubstitution(response: Option<AlternativesResponse>, hasCallback: bool)
      returns (call: Option<Substitution>, closed: bool)
      modifies this
      ensures CanConfirm(response, old(selectedAlternative), hasCallback) ==>
        && call == Some(Substitution(response.value.ingredient, old(selectedAlternative).value))
        && selectedAlternative == None
        && closed
      ensures !CanConfirm(response, old(selectedAlternative), hasCallback) ==>
        call == None && !closed && selectedAlternative == old(selectedAlternative)
    {
      if response.Some? && selectedAlternative.Some? && selectedAlternative.value != "" && hasCallback {
        call := Some(Substitution(response.value.ingredient, selectedAlternative.value));
        selectedAlternative := None;
        closed := true;
      } else {
        call := None;
        closed := false;
      }
    }

    /** Closing always clears the selection and calls `onClose`. */
    method HandleClose() returns (closed: bool)
      modifies this
      ensures selectedAlternative == None
      ensures closed
    {
      selectedAlternative := None;
      closed := true;
    }
  }
}
