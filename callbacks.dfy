/**
 * The closed alphabet of button presses (`bot/ui/callbacks.py`): each
 * `Literal[...]` field becomes an enumeration, so a payload outside these
 * sets cannot be built at all.
 */
module Callbacks {
  /** `AddFlowAction.action`. */
  datatype AddFlowAction = Start | Continue | Finish | Cancel | Confirm | Back | ConditionMenu

  /** `ConditionBoolAction.symptom`: which question a yes/no button answers. */
  datatype Symptom = Bloating | Diarrhea

  /** `ConditionBoolAction.value`. */
  datatype BoolValue = Yes | No | CancelAnswer

  datatype ConditionBoolAction = ConditionBoolAction(symptom: Symptom, value: BoolValue)

  /** One parsed callback payload; `ConditionWellBeingAction.score` is an unbounded `int`. */
  datatype CallbackData =
    | AddFlow(action: AddFlowAction)
    | ConditionBool(answer: ConditionBoolAction)
    | ConditionWellBeing(score: int)
}
