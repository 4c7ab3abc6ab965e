/** The engine's prompts and the responses that answer them
    (`game_core::engine::outcome`, `game_core::action`). */
module Prompts {
  import opened Wrappers

  type InvestigatorId = nat

  /** The id an option is offered under, scoped to one prompt. */
  type OptionId = nat

  /** A board surface. Only equality on it matters. */
  type OptionTarget(==, !new)

  datatype ChoiceOption = ChoiceOption(
    id: OptionId,
    labelText: string,
    target: Option<OptionTarget>,
    investigator: Option<InvestigatorId>)

  datatype InputKind = PickSingleKind | PickMultipleKind(min: nat, max: nat) | ConfirmKind

  datatype Responder = Investigator(id: InvestigatorId) | Lead(id: InvestigatorId) | Several

  datatype InputRequest = InputRequest(
    prompt: string,
    options: seq<ChoiceOption>,
    kind: InputKind,
    skippable: bool,
    target: Option<OptionTarget>,
    responder: Responder)

  datatype InputResponse =
    | Confirm
    | Skip
    | PickSingle(id: OptionId)
    | PickMultiple(selected: seq<OptionId>)

  /** The one player action the action log holds. */
  datatype PlayerAction = ResolveInput(investigator: InvestigatorId, response: InputResponse)
}
