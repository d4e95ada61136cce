/**
 * `FoodEventService` (`bot/services/food_event_service.py` is not part of
 * this model). The dialogue only calls `persist_event(draft, condition)` and
 * reads `len(result.foods)`; the service here records every call and answers
 * with a result supplied from outside.
 */
module FoodEvents {
  import opened Domain

  class FoodEventService {
    /** What the real service would hand back for a given draft and condition. */
    const outcome: (FoodEventDraft, Condition) -> PersistedFoodEvent
    /** Every `persist_event` call so far, in order, with its arguments. */
    var calls: seq<(FoodEventDraft, Condition)>

    constructor (outcome: (FoodEventDraft, Condition) -> PersistedFoodEvent)
      ensures this.outcome == outcome && calls == []
    {
      this.outcome := outcome;
      calls := [];
    }

    method PersistEvent(draft: FoodEventDraft, condition: Condition) returns (r: PersistedFoodEvent)
      modifies this
      ensures calls == old(calls) + [(draft, condition)]
      ensures r == outcome(draft, condition)
    {
      calls := calls + [(draft, condition)];
      r := outcome(draft, condition);
    }
  }
}
