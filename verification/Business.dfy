/**
  What a business configures for its calls, and what its validation guarantees.
*/
module Business {
  import opened Options
  import opened CallState

  datatype PipelineSlot = PipelineSlot(
    slot: Name, required: bool, default: Option<Value>, fromSlot: Option<Name>, fromCustomer: Option<Name>)

  datatype Confirm = Confirm(response: Name, askChange: Name)

  datatype After = Continue | End

  datatype Pipeline = Pipeline(
    slots: seq<PipelineSlot>,
    confirm: Option<Confirm>,
    action: Option<Name>,
    onSuccess: Option<Name>,
    onFailure: Option<Name>,
    onUnknown: Option<Name>,
    onComplete: Option<Name>,
    after: After,
    offer: Option<Name>)
  {
    predicate Has(slot: Name) {
      exists i :: 0 <= i < |slots| && slots[i].slot == slot
    }
  }

  datatype SlotConfig = SlotConfig(confirmBelow: real, rejectBelow: real)

  datatype Action = Action(requiresConfirmation: bool, maxAttempts: nat, minConfidence: real)

  datatype Intent = Intent(
    id: Name, pipeline: Option<Name>, respond: Option<Name>, handoff: bool, switchConfidence: real)

  datatype Effect =
    | Reject(response: Name)
    | HandOver(say: Option<Name>, why: string)
    | SetTo(slot: Name, value: Option<Value>)

  /** A rule fires when its test holds of the value of its slot, if any. */
  datatype Rule = Rule(id: Name, pipeline: Option<Name>, slot: Name, test: Option<Value> -> bool, effect: Effect)

  datatype Settings = Settings(
    pipelines: map<Name, Pipeline>,
    intents: seq<Intent>,
    slots: map<Name, SlotConfig>,
    actions: map<Name, Action>,
    rules: seq<Rule>,
    ladder: seq<Name>,
    restart: Option<Name>,
    maxReprompts: nat,
    patientReprompts: nat,
    patientResponse: Option<Name>,
    silenceResponse: Option<Name>,
    afterActionFailures: nat,
    handoffResponse: Name,
    unavailableResponse: Name,
    greeting: Name,
    goodbye: Name,
    anythingElse: Name,
    abuseWarning: Option<Name>,
    abuseGoodbye: Option<Name>)
  {
    /** What validation refuses to load a business without. */
    ghost predicate Valid() {
      && (forall i :: 0 <= i < |intents| && intents[i].pipeline.Some? ==> intents[i].pipeline.value in pipelines)
      && (forall a :: a in actions ==> actions[a].maxAttempts >= 1)
      && (forall p :: p in pipelines && pipelines[p].action.Some? ==>
            && pipelines[p].action.value in actions
            && (actions[pipelines[p].action.value].requiresConfirmation ==> pipelines[p].confirm.Some?))
    }

    function MaxAttempts(action: Name): nat {
      if action in actions then actions[action].maxAttempts else 1
    }

    /** An action that changes something outside the call. */
    predicate Changes(action: Name) {
      action in actions && actions[action].requiresConfirmation
    }

    /** The most silences in a row, with no word of the caller's, that leave the call open. */
    function Patience(): nat {
      maxReprompts + patientReprompts
    }
  }
}
