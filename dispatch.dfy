/**
 * Routing of one update to one handler, and the effect of a whole run of
 * updates. The bot registers its routers in the order start, add_food,
 * photo, common (`bot/app.py`); within a router, the first handler whose
 * filters match is the one called, and an update no filter matches is dropped.
 */
module Dispatch {
  import opened Optional
  import opened Callbacks
  import opened Domain
  import opened Time
  import opened Text
  import opened Fsm
  import opened FoodEvents
  import AddFood
  import Common
  import Photo

  /** An incoming update: a chat message (`text` absent for non-text messages) or a button press. */
  datatype Update = Message(text: Option<string>, photos: nat) | Callback(data: CallbackData)

  /** Which handler an update reaches, with the arguments the handler reads from it. */
  datatype Handler =
    | NotInCore          // `bot/handlers/start.py` (`/start` and the "condition" button): no session change
    | Unhandled          // no filter matched
    | CmdAdd
    | CbStart
    | HandleFoodsInput(text: Option<string>)
    | CbContinue
    | CbFinish
    | CbBackToAdding
    | CbCancel
    | CbConfirmFinish
    | CbConditionBloating(answer: ConditionBoolAction)
    | CbConditionDiarrhea(answer: ConditionBoolAction)
    | CbConditionWellBeing(score: int)
    | HandlePhoto(photos: nat)
    | CmdCancel

  /** What the world supplies to a handler: the clock, and the photo download and recognition results. */
  datatype Env = Env(now: Timestamp, botPresent: bool, download: Option<Photo.Image>, intake: Photo.PhotoIntake)

  /** End of the first word of `s` at or after `i`. */
  function WordEnd(s: string, i: nat): (k: nat)
    requires i <= |s|
    ensures i <= k <= |s|
    ensures forall j :: i <= j < k ==> !IsSpace(s[j])
    ensures k < |s| ==> IsSpace(s[k])
    decreases |s| - i
  {
    if i == |s| || IsSpace(s[i]) then i else WordEnd(s, i + 1)
  }

  /**
   * The command an aiogram `Command(...)` filter sees: the first word of the
   * text without its leading `/` (bot mentions such as `/add@bot` are not modelled).
   */
  function CommandName(text: string): Option<string> {
    if text == [] || text[0] != '/' then None else Some(text[1..WordEnd(text, 1)])
  }

  predicate IsCommand(u: Update, name: string) {
    u.Message? && u.text.Some? && CommandName(u.text.value) == Some(name)
  }

  /** Callback routing: only the add_food router and one button of the start router read callbacks. */
  function CallbackRoute(st: Option<FoodLogState>, data: CallbackData): Handler {
    match data
    case AddFlow(a) =>
      if a == ConditionMenu then NotInCore
      else if a == Start then CbStart
      else if st == Some(AddingFoods) && a == Continue then CbContinue
      else if st == Some(AddingFoods) && a == Finish then CbFinish
      else if st == Some(ConfirmFinish) && a == Back then CbBackToAdding
      else if (st == Some(AddingFoods) || st == Some(ConfirmFinish)) && a == Cancel then CbCancel
      else if st == Some(ConfirmFinish) && a == Confirm then CbConfirmFinish
      else Unhandled
    case ConditionBool(a) =>
      if st == Some(AskConditionBloating) then CbConditionBloating(a)
      else if st == Some(AskConditionDiarrhea) then CbConditionDiarrhea(a)
      else Unhandled
    case ConditionWellBeing(score) =>
      if st == Some(AskConditionWellBeing) then CbConditionWellBeing(score) else Unhandled
  }

  /**
   * Message routing in the registration order of the source: the adding_foods
   * text handler, which matches every message in that state, comes before
   * the photo handler and before `/cancel`.
   */
  function RouteAsWritten(st: Option<FoodLogState>, u: Update): Handler {
    match u
    case Callback(data) => CallbackRoute(st, data)
    case Message(text, photos) =>
      if IsCommand(u, "start") then NotInCore
      else if IsCommand(u, "add") then CmdAdd
      else if st == Some(AddingFoods) then HandleFoodsInput(text)
      else if photos > 0 then HandlePhoto(photos)
      else if IsCommand(u, "cancel") then CmdCancel
      else Unhandled
  }

  /**
   * The routing the rest of the model uses: as written, except that the
   * `/cancel` command is tried before the add_food router, so that it is
   * accepted in every state.
   */
  function Route(st: Option<FoodLogState>, u: Update): Handler {
    match u
    case Callback(data) => CallbackRoute(st, data)
    case Message(text, photos) =>
      if IsCommand(u, "start") then NotInCore
      else if IsCommand(u, "cancel") then CmdCancel
      else if IsCommand(u, "add") then CmdAdd
      else if st == Some(AddingFoods) then HandleFoodsInput(text)
      else if photos > 0 then HandlePhoto(photos)
      else Unhandled
  }

  /** The effect of running handler `h` on session `b`. */
  function Apply(h: Handler, b: Bag, env: Env, persist: (FoodEventDraft, Condition) -> PersistedFoodEvent): Effect {
    match h
    case NotInCore => NoChange(b, [])
    case Unhandled => NoChange(b, [])
    case CmdAdd => AddFood.StartFlowEffect(b, env.now)
    case CbStart => AddFood.CbStartEffect(b, env.now)
    case HandleFoodsInput(text) => AddFood.FoodsInputEffect(b, text, env.now)
    case CbContinue => NoChange(b, AddFood.ContinueReplies)
    case CbFinish => AddFood.FinishEffect(b, env.now)
    case CbBackToAdding => AddFood.BackEffect(b)
    case CbCancel => AddFood.CancelEffect(b)
    case CbConfirmFinish => AddFood.ConfirmEffect(b, env.now)
    case CbConditionBloating(a) => AddFood.AnswerEffect(b, Bloating, a)
    case CbConditionDiarrhea(a) => AddFood.AnswerEffect(b, Diarrhea, a)
    case CbConditionWellBeing(score) => AddFood.WellBeingEffect(b, score, env.now, persist)
    case HandlePhoto(photos) => Photo.HandlePhotoEffect(b, env.botPresent, photos, env.download, env.intake, env.now)
    case CmdCancel => Common.CmdCancelEffect(b)
  }

  /** One update, as the model routes it. */
  function Step(b: Bag, u: Update, env: Env, persist: (FoodEventDraft, Condition) -> PersistedFoodEvent): Effect {
    Apply(Route(b.state, u), b, env, persist)
  }

  /** One update, as the source's registration order routes it. */
  function StepAsWritten(b: Bag, u: Update, env: Env, persist: (FoodEventDraft, Condition) -> PersistedFoodEvent): Effect {
    Apply(RouteAsWritten(b.state, u), b, env, persist)
  }

  /** A run of updates, one after the other, with replies and persistence calls collected in order. */
  function Run(b: Bag, evs: seq<(Update, Env)>, persist: (FoodEventDraft, Condition) -> PersistedFoodEvent): Effect
    decreases |evs|
  {
    if evs == [] then Effect(b, [], [])
    else
      var e := Step(b, evs[0].0, evs[0].1, persist);
      var r := Run(e.bag, evs[1..], persist);
      Effect(r.bag, e.out + r.out, e.persisted + r.persisted)
  }

  /** A run of updates as the source's registration order routes each one. */
  function RunAsWritten(b: Bag, evs: seq<(Update, Env)>, persist: (FoodEventDraft, Condition) -> PersistedFoodEvent): Effect
    decreases |evs|
  {
    if evs == [] then Effect(b, [], [])
    else
      var e := StepAsWritten(b, evs[0].0, evs[0].1, persist);
      var r := RunAsWritten(e.bag, evs[1..], persist);
      Effect(r.bag, e.out + r.out, e.persisted + r.persisted)
  }

  /** Handles one update on the live session, calling the handler its route selects. */
  method Dispatch(ctx: FsmContext, svc: FoodEventService, u: Update, env: Env) returns (out: seq<Output>)
    modifies ctx, svc
    ensures var e := Step(old(ctx.Snapshot()), u, env, svc.outcome);
            ctx.Snapshot() == e.bag && out == e.out && svc.calls == old(svc.calls) + e.persisted
  {
    var h := Route(ctx.state, u);
    match h
    case NotInCore => out := [];
    case Unhandled => out := [];
    case CmdAdd => out := AddFood.CmdAdd(ctx, env.now);
    case CbStart => out := AddFood.CbStart(ctx, env.now);
    case HandleFoodsInput(text) => out := AddFood.HandleFoodsInput(ctx, text, env.now);
    case CbContinue => out := AddFood.CbContinue();
    case CbFinish => out := AddFood.CbFinish(ctx, env.now);
    case CbBackToAdding => out := AddFood.CbBackToAdding(ctx);
    case CbCancel => out := AddFood.CbCancel(ctx);
    case CbConfirmFinish => out := AddFood.CbConfirmFinish(ctx, env.now);
    case CbConditionBloating(a) => out := AddFood.CbConditionBloating(ctx, a);
    case CbConditionDiarrhea(a) => out := AddFood.CbConditionDiarrhea(ctx, a);
    case CbConditionWellBeing(score) => out := AddFood.CbConditionWellBeing(ctx, svc, score, env.now);
    case HandlePhoto(photos) =>
      out := Photo.HandlePhoto(ctx, env.botPresent, photos, env.download, env.intake, env.now);
    case CmdCancel => out := Common.CmdCancel(ctx);
  }
}
