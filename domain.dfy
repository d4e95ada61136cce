/**
 * The domain records the dialogue serialises into the session bag, and the
 * dialogue's state names. `bot/domain/models.py` and `bot/fsm/states.py` are
 * not part of this model: only what the handlers rely on is stated here.
 */
module Domain {
  import opened Optional
  import opened Time

  /** `FoodLogStates`; the absence of a state (`None`) is the idle session. */
  datatype FoodLogState =
    | AddingFoods
    | ConfirmFinish
    | AskConditionBloating
    | AskConditionDiarrhea
    | AskConditionWellBeing
    | Persisting

  /** `FoodEventDraft`: when the session started and the ingredient lines typed so far. */
  datatype FoodEventDraft = FoodEventDraft(startedAt: Timestamp, foodsRaw: seq<string>)

  /** `ConditionDraft`: the three answers, each unset until given. */
  datatype ConditionDraft = ConditionDraft(bloating: Option<bool>, diarrhea: Option<bool>, wellBeing: Option<int>)

  /** `Condition`: the finished answers handed to persistence. */
  datatype Condition = Condition(bloating: bool, diarrhea: bool, wellBeing: int)

  /** `PersistedFoodEvent`: what `persist_event` hands back. */
  datatype PersistedFoodEvent = PersistedFoodEvent(foodLogPath: string, conditionLogPath: string, foods: seq<string>)

  /** `FoodEventDraft(started_at=now)`: a draft with no foods yet. */
  function FreshDraft(now: Timestamp): (d: FoodEventDraft)
    ensures d.startedAt == now && d.foodsRaw == []
  {
    FoodEventDraft(now, [])
  }

  /** `FoodEventDraft.append_foods`, taken to append in order and keep `started_at`. */
  function AppendFoods(d: FoodEventDraft, foods: seq<string>): (r: FoodEventDraft)
    ensures r.startedAt == d.startedAt && r.foodsRaw == d.foodsRaw + foods
  {
    d.(foodsRaw := d.foodsRaw + foods)
  }

  /** `ConditionDraft()`: nothing answered. */
  const EmptyCondition := ConditionDraft(None, None, None)

  /** `ConditionDraft.is_complete`: every one of the three answers is set. */
  predicate IsComplete(c: ConditionDraft) {
    c.bloating.Some? && c.diarrhea.Some? && c.wellBeing.Some?
  }

  /** Python's `bool(x)` on an optional boolean: `None` is false. */
  function Truthy(b: Option<bool>): bool { b.GetOr(false) }
}
