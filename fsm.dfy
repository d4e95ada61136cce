/**
 * The per-(chat, user) session the handlers read and write: aiogram's
 * `FSMContext`, seen as an optional state plus a data bag with the two keys
 * the core uses, `draft` and `condition`. Also what a handler emits: the
 * replies it sends and, for the final answer, the persistence call.
 */
module Fsm {
  import opened Optional
  import opened Domain

  /** A snapshot of the session: the FSM state and the bag's `draft` and `condition` keys. */
  datatype Bag = Bag(state: Option<FoodLogState>, draft: Option<FoodEventDraft>, condition: Option<ConditionDraft>)

  /** What `state.clear()` leaves behind. */
  const Empty := Bag(None, None, None)

  /** The user-visible texts, one constructor per distinct reply (their Russian wording is not modelled). */
  datatype Msg =
    | EnterFoods
    | NoFoodsFound
    | Added(count: nat, total: nat, preview: seq<string>)
    | KeepTyping
    | AddFoodsFirst
    | ReviewFoods(foods: seq<string>)
    | EnterMoreFoods
    | RecordCancelled
    | AddAtLeastOne
    | AskBloating
    | OtherQuestion
    | AskDiarrhea
    | AskWellBeing
    | AnswerAll
    | Saved(total: nat)
    | ConditionCancelled
    | NothingRecorded
    | DialogCancelled
    | BotMissing
    | PhotoMissing
    | DownloadFailed
    | RecognitionUnavailable
    | NoIngredients
    | Recognized(items: seq<string>)

  /**
   * `Answer` is `message.answer(...)`, a chat message; `Toast` is
   * `callback.answer(text?)`, the acknowledgement of a button press;
   * `Alert` is `callback.answer(text, show_alert=True)`.
   */
  datatype Output = Answer(msg: Msg) | Toast(text: Option<Msg>) | Alert(alert: Msg)

  /** The whole effect of one event: the new session, the replies, and the `persist_event` calls made. */
  datatype Effect = Effect(bag: Bag, out: seq<Output>, persisted: seq<(FoodEventDraft, Condition)>)

  function NoChange(b: Bag, out: seq<Output>): (e: Effect)
    ensures e.bag == b && e.out == out && e.persisted == []
  {
    Effect(b, out, [])
  }

  /** The session storage of one (chat, user) key. */
  class FsmContext {
    var state: Option<FoodLogState>
    var draft: Option<FoodEventDraft>
    var condition: Option<ConditionDraft>

    constructor ()
      ensures Snapshot() == Empty
    {
      state, draft, condition := None, None, None;
    }

    function Snapshot(): Bag
      reads this
    {
      Bag(state, draft, condition)
    }

    /** `state.clear()`: drops the state and the whole data bag. */
    method Clear()
      modifies this
      ensures Snapshot() == Empty
    {
      state, draft, condition := None, None, None;
    }

    /** `state.set_state(s)`. */
    method SetState(s: FoodLogState)
      modifies this
      ensures Snapshot() == old(Snapshot()).(state := Some(s))
    {
      state := Some(s);
    }

    /** `state.update_data(draft=...)`: only the `draft` key changes. */
    method UpdateDraft(d: FoodEventDraft)
      modifies this
      ensures Snapshot() == old(Snapshot()).(draft := Some(d))
    {
      draft := Some(d);
    }

    /** `state.update_data(condition=...)`: only the `condition` key changes. */
    method UpdateCondition(c: ConditionDraft)
      modifies this
      ensures Snapshot() == old(Snapshot()).(condition := Some(c))
    {
      condition := Some(c);
    }
  }
}
