/**
 * What the dialogue guarantees, stated over the pure effects of its
 * handlers and over whole runs of updates.
 */
module FlowProperties {
  import opened Optional
  import opened Callbacks
  import opened Domain
  import opened Time
  import opened Text
  import opened Fsm
  import opened AddFood
  import opened Dispatch
  import Common
  import Photo

  // ------------------------------------------------------------ reachable sessions

  /**
   * The sessions the dialogue can be found in between two updates: an idle
   * session holds no data; every other state holds a draft; past
   * `adding_foods` the draft is non-empty; each question state holds exactly
   * the answers given so far; `persisting` never outlives its handler.
   */
  predicate Wf(b: Bag) {
    match b.state
    case None => b.draft.None? && b.condition.None?
    case Some(s) =>
      b.draft.Some? &&
      match s
      case AddingFoods => b.condition.None?
      case ConfirmFinish => b.draft.value.foodsRaw != [] && b.condition.None?
      case AskConditionBloating => b.draft.value.foodsRaw != [] && b.condition == Some(EmptyCondition)
      case AskConditionDiarrhea =>
        b.draft.value.foodsRaw != [] && b.condition.Some? && b.condition.value.bloating.Some?
        && b.condition.value.diarrhea.None? && b.condition.value.wellBeing.None?
      case AskConditionWellBeing =>
        b.draft.value.foodsRaw != [] && b.condition.Some? && b.condition.value.bloating.Some?
        && b.condition.value.diarrhea.Some? && b.condition.value.wellBeing.None?
      case Persisting => false
  }

  lemma EmptyIsWf()
    ensures Wf(Empty)
  {
  }

  /** Every update keeps the session reachable. */
  lemma StepKeepsWf(b: Bag, u: Update, env: Env, persist: (FoodEventDraft, Condition) -> PersistedFoodEvent)
    requires Wf(b)
    ensures Wf(Step(b, u, env, persist).bag)
  {
    StepByRoute(Route(b.state, u), u, b, env, persist);
    match u
    case Message(_, _) => MessageKeepsWf(b, u, env, persist);
    case Callback(AddFlow(_)) => ButtonKeepsWf(b, u, env, persist);
    case Callback(ConditionBool(_)) => AnswerKeepsWf(b, u, env, persist);
    case Callback(ConditionWellBeing(_)) =>
  }

  lemma MessageKeepsWf(b: Bag, u: Update, env: Env, persist: (FoodEventDraft, Condition) -> PersistedFoodEvent)
    requires Wf(b) && u.Message?
    ensures Wf(Apply(Route(b.state, u), b, env, persist).bag)
  {
  }

  lemma ButtonKeepsWf(b: Bag, u: Update, env: Env, persist: (FoodEventDraft, Condition) -> PersistedFoodEvent)
    requires Wf(b) && u.Callback? && u.data.AddFlow?
    ensures Wf(Apply(Route(b.state, u), b, env, persist).bag)
  {
  }

  lemma AnswerKeepsWf(b: Bag, u: Update, env: Env, persist: (FoodEventDraft, Condition) -> PersistedFoodEvent)
    requires Wf(b) && u.Callback? && u.data.ConditionBool?
    ensures Wf(Apply(Route(b.state, u), b, env, persist).bag)
  {
  }

  lemma {:induction false} RunKeepsWf(b: Bag, evs: seq<(Update, Env)>, persist: (FoodEventDraft, Condition) -> PersistedFoodEvent)
    requires Wf(b)
    ensures Wf(Run(b, evs, persist).bag)
    decreases |evs|
  {
    if evs != [] {
      StepKeepsWf(b, evs[0].0, evs[0].1, persist);
      RunKeepsWf(Step(b, evs[0].0, evs[0].1, persist).bag, evs[1..], persist);
    }
  }

  // ------------------------------------------------------------ persistence

  predicate IsWellBeingPress(u: Update) { u.Callback? && u.data.ConditionWellBeing? }

  /**
   * `persist_event` is called at most once per update, only for a well-being
   * press while the well-being question is open, and the session is then
   * cleared.
   */
  lemma PersistOnlyOnWellBeing(b: Bag, u: Update, env: Env, persist: (FoodEventDraft, Condition) -> PersistedFoodEvent)
    ensures var e := Step(b, u, env, persist);
            |e.persisted| <= 1 &&
            (e.persisted != [] ==> b.state == Some(AskConditionWellBeing) && IsWellBeingPress(u) && e.bag == Empty)
  {
  }

  /**
   * On a reachable session at the well-being question, a score always
   * completes the record: exactly one `persist_event` call, with the stored
   * draft and the three answers (a score of 0 is stored as 1, `well_being or 1`),
   * then an empty session and a reply counting `result.foods`.
   */
  lemma WellBeingPersistsOnce(b: Bag, score: int, env: Env, persist: (FoodEventDraft, Condition) -> PersistedFoodEvent)
    requires Wf(b) && b.state == Some(AskConditionWellBeing)
    ensures var c := b.condition.value;
            var model := Condition(c.bloating.value, c.diarrhea.value, if score == 0 then 1 else score);
            var e := Step(b, Callback(ConditionWellBeing(score)), env, persist);
            e.persisted == [(b.draft.value, model)] && e.bag == Empty &&
            e.out == [Toast(None), Answer(Saved(|persist(b.draft.value, model).foods|))] &&
            b.draft.value.foodsRaw != []
  {
  }

  /** On an incomplete draft the only effect of a score is one alert: the session, score included, is not written. */
  lemma IncompleteWellBeingOnlyAlerts(b: Bag, score: int, now: Timestamp, persist: (FoodEventDraft, Condition) -> PersistedFoodEvent)
    requires ConditionOf(b).bloating.None? || ConditionOf(b).diarrhea.None?
    ensures WellBeingEffect(b, score, now, persist) == Effect(b, [Alert(AnswerAll)], [])
  {
  }

  /** A run in which nobody presses a well-being button persists nothing. */
  lemma {:induction false} NoPersistWithoutWellBeing(b: Bag, evs: seq<(Update, Env)>, persist: (FoodEventDraft, Condition) -> PersistedFoodEvent)
    requires forall i :: 0 <= i < |evs| ==> !IsWellBeingPress(evs[i].0)
    ensures Run(b, evs, persist).persisted == []
    decreases |evs|
  {
    if evs != [] {
      PersistOnlyOnWellBeing(b, evs[0].0, evs[0].1, persist);
      NoPersistWithoutWellBeing(Step(b, evs[0].0, evs[0].1, persist).bag, evs[1..], persist);
    }
  }

  predicate DraftsNonEmpty(p: seq<(FoodEventDraft, Condition)>) {
    forall i :: 0 <= i < |p| ==> p[i].0.foodsRaw != []
  }

  /** Every draft handed to `persist_event` during a run from a reachable session has at least one food. */
  lemma {:induction false} PersistedDraftsNonEmpty(b: Bag, evs: seq<(Update, Env)>, persist: (FoodEventDraft, Condition) -> PersistedFoodEvent)
    requires Wf(b)
    ensures DraftsNonEmpty(Run(b, evs, persist).persisted)
    decreases |evs|
  {
    if evs != [] {
      var u := evs[0].0;
      var e := Step(b, u, evs[0].1, persist);
      PersistOnlyOnWellBeing(b, u, evs[0].1, persist);
      if e.persisted != [] {
        assert u == Callback(ConditionWellBeing(u.data.score));
        WellBeingPersistsOnce(b, u.data.score, evs[0].1, persist);
      }
      StepKeepsWf(b, u, evs[0].1, persist);
      PersistedDraftsNonEmpty(e.bag, evs[1..], persist);
      var r := Run(e.bag, evs[1..], persist);
      var p := e.persisted + r.persisted;
      assert Run(b, evs, persist).persisted == p;
      forall i | 0 <= i < |p| ensures p[i].0.foodsRaw != [] {
        if i >= |e.persisted| {
          assert p[i] == r.persisted[i - |e.persisted|];
        }
      }
    }
  }

  // ------------------------------------------------------------ start and foods

  /** The command words the dialogue's texts carry. */
  lemma CommandWords()
    ensures CommandName("/add") == Some("add")
    ensures CommandName("/cancel") == Some("cancel")
  {
    assert forall j :: 1 <= j < 4 ==> !IsSpace("/add"[j]);
    assert "/add"[1..4] == "add";
    assert forall j :: 1 <= j < 7 ==> !IsSpace("/cancel"[j]);
    assert "/cancel"[1..7] == "cancel";
  }

  /** `_start_flow` from any session: data cleared, a fresh empty draft started `now`, state `adding_foods`. */
  lemma StartClearsSession(b: Bag, env: Env, persist: (FoodEventDraft, Condition) -> PersistedFoodEvent)
    ensures var e := Step(b, Message(Some("/add"), 0), env, persist);
            e.bag == Bag(Some(AddingFoods), Some(FoodEventDraft(env.now, [])), None) &&
            e.persisted == [] && |e.out| == 1
  {
    CommandWords();
  }

  /**
   * Text in `adding_foods`: with no lines, one hint and nothing changes;
   * otherwise the draft's foods become the old list followed by the lines,
   * with `started_at` kept and one reply.
   */
  lemma FoodsInputAppends(b: Bag, text: Option<string>, now: Timestamp)
    requires b.draft.Some?
    ensures var lines := ExtractLines(text.GetOr(""));
            var e := FoodsInputEffect(b, text, now);
            e.persisted == [] && |e.out| == 1 &&
            (lines == [] ==> e.bag == b && e.out == [Answer(NoFoodsFound)]) &&
            (lines != [] ==> e.bag == b.(draft := Some(FoodEventDraft(b.draft.value.startedAt, b.draft.value.foodsRaw + lines))))
  {
  }

  /** Any message in `adding_foods` that is none of the commands `/start`, `/cancel`, `/add` is food input. */
  lemma PlainTextWhileAddingIsFoodInput(text: Option<string>, photos: nat)
    requires text.Some? ==> CommandName(text.value) !in {Some("start"), Some("cancel"), Some("add")}
    ensures Route(Some(AddingFoods), Message(text, photos)) == HandleFoodsInput(text)
  {
  }

  predicate Restarts(h: Handler) { h.CmdAdd? || h.CbStart? || h.HandlePhoto? }

  /**
   * Except for the handlers that start over (`/add`, the start button, a
   * photo), an update never shrinks the foods list nor touches `started_at`:
   * a draft afterwards extends the draft before.
   */
  lemma DraftOnlyGrows(b: Bag, u: Update, env: Env, persist: (FoodEventDraft, Condition) -> PersistedFoodEvent)
    requires Wf(b) && !Restarts(Route(b.state, u))
    ensures var e := Step(b, u, env, persist);
            e.bag.draft.Some? ==>
              b.draft.Some? && e.bag.draft.value.startedAt == b.draft.value.startedAt &&
              b.draft.value.foodsRaw <= e.bag.draft.value.foodsRaw
  {
  }

  // ------------------------------------------------------------ finish, back, confirm

  /** `finish` on an empty list: one alert and the state stays as it was. */
  lemma FinishEmptyAlerts(b: Bag, now: Timestamp)
    requires DraftOf(b, now).foodsRaw == []
    ensures var e := FinishEffect(b, now);
            e.out == [Alert(AddFoodsFirst)] && e.bag.state == b.state && e.persisted == []
  {
  }

  /** `finish` on a non-empty list moves to `confirm_finish` with the list kept. */
  lemma FinishMovesToConfirm(b: Bag, now: Timestamp)
    requires DraftOf(b, now).foodsRaw != []
    ensures var e := FinishEffect(b, now);
            e.bag.state == Some(ConfirmFinish) && e.bag.draft == Some(DraftOf(b, now)) && e.bag.condition == b.condition
  {
  }

  /** `back` returns to `adding_foods` and keeps the draft. */
  lemma BackKeepsFoods(b: Bag)
    ensures var e := BackEffect(b);
            e.bag.state == Some(AddingFoods) && e.bag.draft == b.draft && e.persisted == []
  {
  }

  /** `confirm` on an empty list: one alert and the state stays as it was. */
  lemma ConfirmEmptyAlerts(b: Bag, now: Timestamp)
    requires DraftOf(b, now).foodsRaw == []
    ensures var e := ConfirmEffect(b, now);
            e.out == [Alert(AddAtLeastOne)] && e.bag.state == b.state && e.persisted == []
  {
  }

  /** `confirm` on a non-empty list opens the bloating question with an empty condition. */
  lemma ConfirmOpensQuestions(b: Bag, now: Timestamp)
    requires DraftOf(b, now).foodsRaw != []
    ensures var e := ConfirmEffect(b, now);
            e.bag.state == Some(AskConditionBloating) && e.bag.condition == Some(EmptyCondition) &&
            e.bag.draft == Some(DraftOf(b, now))
  {
  }

  // ------------------------------------------------------------ the two yes/no questions

  /** A yes/no press for the other symptom is rejected with one alert and no change. */
  lemma MismatchRejected(b: Bag, asked: Symptom, a: ConditionBoolAction)
    requires a.symptom != asked
    ensures AnswerEffect(b, asked, a) == Effect(b, [Alert(OtherQuestion)], [])
  {
  }

  /** A `cancel` press for the open question empties the session. */
  lemma AnswerCancelClears(b: Bag, asked: Symptom)
    ensures var e := AnswerEffect(b, asked, ConditionBoolAction(asked, CancelAnswer));
            e.bag == Empty && e.persisted == []
  {
  }

  /**
   * A yes/no answer for the open question records `value == "yes"` in its
   * field alone and moves to the next question.
   */
  lemma AnswerRecorded(b: Bag, asked: Symptom, v: BoolValue)
    requires v != CancelAnswer
    ensures var e := AnswerEffect(b, asked, ConditionBoolAction(asked, v));
            var c := ConditionOf(b);
            e.persisted == [] && e.bag.draft == b.draft &&
            (asked == Bloating ==> e.bag.state == Some(AskConditionDiarrhea) &&
                                   e.bag.condition == Some(c.(bloating := Some(v == Yes)))) &&
            (asked == Diarrhea ==> e.bag.state == Some(AskConditionWellBeing) &&
                                   e.bag.condition == Some(c.(diarrhea := Some(v == Yes))))
  {
  }

  // ------------------------------------------------------------ cancel

  /** The cancel button in `adding_foods` or `confirm_finish` empties the session and persists nothing. */
  lemma CancelButtonClears(b: Bag, env: Env, persist: (FoodEventDraft, Condition) -> PersistedFoodEvent)
    requires b.state == Some(AddingFoods) || b.state == Some(ConfirmFinish)
    ensures Step(b, Callback(AddFlow(Callbacks.Cancel)), env, persist) == Effect(Empty, [Toast(None), Answer(RecordCancelled)], [])
  {
  }

  /** The cancel button of the open yes/no question empties the session and persists nothing. */
  lemma QuestionCancelClears(b: Bag, env: Env, persist: (FoodEventDraft, Condition) -> PersistedFoodEvent)
    requires b.state == Some(AskConditionBloating) || b.state == Some(AskConditionDiarrhea)
    ensures var asked := if b.state == Some(AskConditionBloating) then Bloating else Diarrhea;
            Step(b, Callback(ConditionBool(ConditionBoolAction(asked, CancelAnswer))), env, persist)
              == Effect(Empty, [Toast(None), Answer(ConditionCancelled)], [])
  {
  }

  /** `cmd_cancel`: one reply; on an idle session nothing changes, otherwise the session is emptied. */
  lemma CmdCancelContract(b: Bag)
    ensures var e := Common.CmdCancelEffect(b);
            |e.out| == 1 && e.persisted == [] &&
            (b.state.None? ==> e.bag == b && e.out == [Answer(NothingRecorded)]) &&
            (b.state.Some? ==> e.bag == Empty && e.out == [Answer(DialogCancelled)])
  {
  }

  /** With the corrected routing, `/cancel` reaches `cmd_cancel` in every state. */
  lemma CancelCommandAlwaysRouted(st: Option<FoodLogState>, text: string, photos: nat)
    requires CommandName(text) == Some("cancel")
    ensures Route(st, Message(Some(text), photos)) == CmdCancel
  {
  }

  /** So from every reachable session `/cancel` leaves nothing behind. */
  lemma CancelCommandClears(b: Bag, text: string, photos: nat, env: Env, persist: (FoodEventDraft, Condition) -> PersistedFoodEvent)
    requires Wf(b) && CommandName(text) == Some("cancel")
    ensures var e := Step(b, Message(Some(text), photos), env, persist);
            e.bag == Empty && e.persisted == [] && |e.out| == 1
  {
  }

  /**
   * As the source registers its routers, `/cancel` typed while adding foods
   * never reaches `cmd_cancel`: the adding_foods text handler takes it and
   * appends the command text to the draft as an ingredient.
   */
  lemma CancelCommandSwallowedAsWritten(b: Bag, text: string, env: Env, persist: (FoodEventDraft, Condition) -> PersistedFoodEvent)
    requires Wf(b) && b.state == Some(AddingFoods)
    requires CommandName(text) == Some("cancel") && FoodLine(text)
    ensures RouteAsWritten(b.state, Message(Some(text), 0)) == HandleFoodsInput(Some(text))
    ensures var e := StepAsWritten(b, Message(Some(text), 0), env, persist);
            e.bag.state == Some(AddingFoods) && e.bag.draft == Some(AppendFoods(b.draft.value, [text])) &&
            e.persisted == []
  {
    var u := Message(Some(text), 0);
    assert RouteAsWritten(b.state, u) == HandleFoodsInput(Some(text));
    StepAsWrittenByRoute(HandleFoodsInput(Some(text)), u, b, env, persist);
    assert JoinLines([text]) == text;
    ExtractLinesOfJoin([text]);
  }

  /** The plain `/cancel` is such a text. */
  lemma CancelIsCommandLine()
    ensures CommandName("/cancel") == Some("cancel") && FoodLine("/cancel")
  {
    CommandWords();
  }

  lemma StepAsWrittenByRoute(h: Handler, u: Update, b: Bag, env: Env, persist: (FoodEventDraft, Condition) -> PersistedFoodEvent)
    requires RouteAsWritten(b.state, u) == h
    ensures StepAsWritten(b, u, env, persist) == Apply(h, b, env, persist)
  {
  }

  /** The corrected routing differs from the source's only on `/cancel` commands. */
  lemma RoutesDifferOnlyOnCancel(st: Option<FoodLogState>, u: Update)
    requires !IsCommand(u, "cancel")
    ensures Route(st, u) == RouteAsWritten(st, u)
  {
  }

  /**
   * A run with no `/cancel` command goes the same way under both routings,
   * so every run-level property of `Run` holds of the source's routing on
   * such runs.
   */
  lemma {:induction false} RunAsWrittenAgrees(b: Bag, evs: seq<(Update, Env)>, persist: (FoodEventDraft, Condition) -> PersistedFoodEvent)
    requires forall k :: 0 <= k < |evs| ==> !IsCommand(evs[k].0, "cancel")
    ensures RunAsWritten(b, evs, persist) == Run(b, evs, persist)
    decreases |evs|
  {
    if evs != [] {
      RoutesDifferOnlyOnCancel(b.state, evs[0].0);
      var e := Step(b, evs[0].0, evs[0].1, persist);
      assert StepAsWritten(b, evs[0].0, evs[0].1, persist) == e;
      assert forall k :: 0 <= k < |evs[1..]| ==> evs[1..][k] == evs[k + 1];
      RunAsWrittenAgrees(e.bag, evs[1..], persist);
    }
  }

  // ------------------------------------------------------------ photo intake

  /** A missing bot or an empty photo list: one reply, session untouched. */
  lemma PhotoGuards(b: Bag, botPresent: bool, photos: nat, download: Option<Photo.Image>, intake: Photo.PhotoIntake, now: Timestamp)
    requires !botPresent || photos == 0
    ensures var e := Photo.HandlePhotoEffect(b, botPresent, photos, download, intake, now);
            e.bag == b && |e.out| == 1 && e.persisted == []
  {
  }

  /** A failed download: one reply, session untouched. */
  lemma PhotoDownloadFailure(b: Bag, photos: nat, intake: Photo.PhotoIntake, now: Timestamp)
    requires photos > 0
    ensures Photo.HandlePhotoEffect(b, true, photos, None, intake, now) == Effect(b, [Answer(DownloadFailed)], [])
  {
  }

  /** Classification `"ingredients"` selects OCR; any other kind selects dish-to-ingredients. */
  lemma RecognizerSelection(intake: Photo.PhotoIntake, image: Photo.Image)
    requires intake.classify(image).Some?
    ensures intake.classify(image).value == "ingredients" ==> Photo.Recognize(intake, image) == intake.ocrIngredients(image)
    ensures intake.classify(image).value != "ingredients" ==> Photo.Recognize(intake, image) == intake.dishToIngredients(image)
  {
  }

  /** A recognition failure or an empty ingredient list: one reply, session untouched. */
  lemma PhotoNothingRecognized(b: Bag, photos: nat, image: Photo.Image, intake: Photo.PhotoIntake, now: Timestamp)
    requires photos > 0
    requires Photo.Recognize(intake, image) == None || Photo.Recognize(intake, image) == Some([])
    ensures var e := Photo.HandlePhotoEffect(b, true, photos, Some(image), intake, now);
            e.bag == b && |e.out| == 1 && e.persisted == []
  {
  }

  /** Recognised ingredients replace the session with a fresh draft holding exactly them, in `adding_foods`. */
  lemma PhotoStartsDraft(b: Bag, photos: nat, image: Photo.Image, intake: Photo.PhotoIntake, now: Timestamp)
    requires photos > 0
    requires Photo.Recognize(intake, image).Some? && Photo.Recognize(intake, image).value != []
    ensures var e := Photo.HandlePhotoEffect(b, true, photos, Some(image), intake, now);
            e.bag == Bag(Some(AddingFoods), Some(FoodEventDraft(now, Photo.Recognize(intake, image).value)), None) &&
            e.persisted == []
  {
    assert [] + Photo.Recognize(intake, image).value == Photo.Recognize(intake, image).value;
  }

  // ------------------------------------------------------------ whole dialogues

  /**
   * A whole dialogue: `/add`, the foods typed as one message, finish,
   * confirm, the two yes/no answers and a well-being score.
   */
  function Dialogue(foods: seq<string>, bloating: bool, diarrhea: bool, score: int): seq<Update> {
    [Message(Some("/add"), 0),
     Message(Some(JoinLines(foods)), 0),
     Callback(AddFlow(Callbacks.Finish)),
     Callback(AddFlow(Callbacks.Confirm)),
     Callback(ConditionBool(ConditionBoolAction(Bloating, if bloating then Yes else No))),
     Callback(ConditionBool(ConditionBoolAction(Diarrhea, if diarrhea then Yes else No))),
     Callback(ConditionWellBeing(score))]
  }

  /** Every update of `us` arrives under the same environment. */
  function Under(us: seq<Update>, env: Env): (evs: seq<(Update, Env)>)
    ensures |evs| == |us| && forall i :: 0 <= i < |us| ==> evs[i] == (us[i], env)
  {
    if us == [] then [] else [(us[0], env)] + Under(us[1..], env)
  }

  /**
   * A whole dialogue from an idle session ends idle, with exactly one
   * `persist_event` call that carries the foods as typed, `started_at` from
   * the `/add`, and the three answers (the flow test is the instance
   * `["Паста", "Сыр"]`, yes, no, 6).
   */
  lemma DialoguePersistsOnce(foods: seq<string>, bloating: bool, diarrhea: bool, score: int,
                             env: Env, persist: (FoodEventDraft, Condition) -> PersistedFoodEvent)
    requires forall k :: 0 <= k < |foods| ==> FoodLine(foods[k])
    requires foods != [] && foods[0] != [] && foods[0][0] != '/'
    ensures var r := Run(Empty, Under(Dialogue(foods, bloating, diarrhea, score), env), persist);
            r.bag == Empty &&
            r.persisted == [(FoodEventDraft(env.now, foods), Condition(bloating, diarrhea, if score == 0 then 1 else score))]
  {
    var us := Dialogue(foods, bloating, diarrhea, score);
    var d := FoodEventDraft(env.now, foods);
    var b1 := Bag(Some(AddingFoods), Some(FoodEventDraft(env.now, [])), None);
    var b2 := b1.(draft := Some(d));
    var b3 := b2.(state := Some(ConfirmFinish));
    var b4 := b3.(state := Some(AskConditionBloating), condition := Some(EmptyCondition));
    var b5 := b4.(state := Some(AskConditionDiarrhea), condition := Some(EmptyCondition.(bloating := Some(bloating))));
    var b6 := b5.(state := Some(AskConditionWellBeing), condition := Some(EmptyCondition.(bloating := Some(bloating), diarrhea := Some(diarrhea))));
    var bs := [Empty, b1, b2, b3, b4, b5, b6];
    forall i: nat | i < |us| - 1 ensures Chained(bs, us, env, persist, i) {
      if i == 0 {
        StartClearsSession(Empty, env, persist);
      } else if i == 1 {
        TypedFoodsAppended(b1, foods, env, persist);
        assert [] + foods == foods;
      } else if i == 2 {
        FinishStep(b2, env, persist);
      } else if i == 3 {
        ConfirmStep(b3, env, persist);
      } else if i == 4 {
        AnswerStep(b4, Bloating, bloating, env, persist);
      } else {
        AnswerStep(b5, Diarrhea, diarrhea, env, persist);
      }
    }
    StepByRoute(CbConditionWellBeing(score), us[6], b6, env, persist);
    var last := Step(b6, us[6], env, persist);
    assert last.bag == Empty && last.persisted == [(d, Condition(bloating, diarrhea, if score == 0 then 1 else score))];
    RunFrom(bs, us, env, persist, 0, last);
  }

  /** The same dialogue routed as the source registers its routers: it holds no `/cancel`, so it ends the same way. */
  lemma DialoguePersistsOnceAsWritten(foods: seq<string>, bloating: bool, diarrhea: bool, score: int,
                                      env: Env, persist: (FoodEventDraft, Condition) -> PersistedFoodEvent)
    requires forall k :: 0 <= k < |foods| ==> FoodLine(foods[k])
    requires foods != [] && foods[0] != [] && foods[0][0] != '/'
    ensures var r := RunAsWritten(Empty, Under(Dialogue(foods, bloating, diarrhea, score), env), persist);
            r.bag == Empty &&
            r.persisted == [(FoodEventDraft(env.now, foods), Condition(bloating, diarrhea, if score == 0 then 1 else score))]
  {
    var evs := Under(Dialogue(foods, bloating, diarrhea, score), env);
    CommandWords();
    JoinLinesHead(foods);
    assert forall k :: 0 <= k < |evs| ==> !IsCommand(evs[k].0, "cancel");
    RunAsWrittenAgrees(Empty, evs, persist);
    DialoguePersistsOnce(foods, bloating, diarrhea, score, env, persist);
  }

  /** `finish` in `adding_foods` with foods moves to `confirm_finish`. */
  lemma FinishStep(b: Bag, env: Env, persist: (FoodEventDraft, Condition) -> PersistedFoodEvent)
    requires b.state == Some(AddingFoods) && b.draft.Some? && b.draft.value.foodsRaw != []
    ensures var e := Step(b, Callback(AddFlow(Callbacks.Finish)), env, persist);
            e.bag == b.(state := Some(ConfirmFinish)) && e.persisted == []
  {
    StepByRoute(CbFinish, Callback(AddFlow(Callbacks.Finish)), b, env, persist);
  }

  /** `confirm` in `confirm_finish` with foods opens the bloating question. */
  lemma ConfirmStep(b: Bag, env: Env, persist: (FoodEventDraft, Condition) -> PersistedFoodEvent)
    requires b.state == Some(ConfirmFinish) && b.draft.Some? && b.draft.value.foodsRaw != []
    ensures var e := Step(b, Callback(AddFlow(Callbacks.Confirm)), env, persist);
            e.bag == b.(state := Some(AskConditionBloating), condition := Some(EmptyCondition)) && e.persisted == []
  {
    StepByRoute(CbConfirmFinish, Callback(AddFlow(Callbacks.Confirm)), b, env, persist);
  }

  /** A yes/no press for the open question records the answer and moves on. */
  lemma AnswerStep(b: Bag, asked: Symptom, v: bool, env: Env, persist: (FoodEventDraft, Condition) -> PersistedFoodEvent)
    requires b.state == Some(if asked == Bloating then AskConditionBloating else AskConditionDiarrhea)
    requires b.condition.Some?
    ensures var u := Callback(ConditionBool(ConditionBoolAction(asked, if v then Yes else No)));
            var e := Step(b, u, env, persist);
            var c := b.condition.value;
            e.persisted == [] &&
            e.bag == if asked == Bloating
                     then b.(state := Some(AskConditionDiarrhea), condition := Some(c.(bloating := Some(v))))
                     else b.(state := Some(AskConditionWellBeing), condition := Some(c.(diarrhea := Some(v))))
  {
    var a := ConditionBoolAction(asked, if v then Yes else No);
    var h := if asked == Bloating then CbConditionBloating(a) else CbConditionDiarrhea(a);
    StepByRoute(h, Callback(ConditionBool(a)), b, env, persist);
  }

  lemma JoinLinesHead(lines: seq<string>)
    requires lines != [] && lines[0] != []
    ensures JoinLines(lines) != [] && JoinLines(lines)[0] == lines[0][0]
  {
  }

  /** Foods typed as one message in `adding_foods` land in the draft as they were typed. */
  lemma TypedFoodsAppended(b: Bag, foods: seq<string>, env: Env, persist: (FoodEventDraft, Condition) -> PersistedFoodEvent)
    requires b.state == Some(AddingFoods) && b.draft.Some?
    requires forall k :: 0 <= k < |foods| ==> FoodLine(foods[k])
    requires foods != [] && foods[0] != [] && foods[0][0] != '/'
    ensures var e := Step(b, Message(Some(JoinLines(foods)), 0), env, persist);
            e.bag == b.(draft := Some(AppendFoods(b.draft.value, foods))) && e.persisted == []
  {
    var text := JoinLines(foods);
    JoinLinesHead(foods);
    PlainTextRoute(text, b.state);
    ExtractLinesOfJoin(foods);
    FoodsInputStep(b, text, env, persist);
  }

  lemma FoodsInputStep(b: Bag, text: string, env: Env, persist: (FoodEventDraft, Condition) -> PersistedFoodEvent)
    requires Route(b.state, Message(Some(text), 0)) == HandleFoodsInput(Some(text))
    requires b.draft.Some? && ExtractLines(text) != []
    ensures var e := Step(b, Message(Some(text), 0), env, persist);
            e.bag == b.(draft := Some(AppendFoods(b.draft.value, ExtractLines(text)))) && e.persisted == []
  {
    StepByRoute(HandleFoodsInput(Some(text)), Message(Some(text), 0), b, env, persist);
    FoodsInputAppends(b, Some(text), env.now);
  }

  lemma PlainTextRoute(text: string, st: Option<FoodLogState>)
    requires text != [] && text[0] != '/' && st == Some(AddingFoods)
    ensures Route(st, Message(Some(text), 0)) == HandleFoodsInput(Some(text))
  {
  }

  lemma StepByRoute(h: Handler, u: Update, b: Bag, env: Env, persist: (FoodEventDraft, Condition) -> PersistedFoodEvent)
    requires Route(b.state, u) == h
    ensures Step(b, u, env, persist) == Apply(h, b, env, persist)
  {
  }

  /** Update `i` takes `bs[i]` to `bs[i + 1]` without persisting anything. */
  predicate Chained(bs: seq<Bag>, us: seq<Update>, env: Env, persist: (FoodEventDraft, Condition) -> PersistedFoodEvent, i: nat)
    requires i + 1 < |bs| && i < |us|
  {
    var e := Step(bs[i], us[i], env, persist);
    e.bag == bs[i + 1] && e.persisted == []
  }

  /**
   * Folding a run whose intermediate sessions are known: when every update
   * but the last is `Chained`, the run from `bs[k]` ends and persists as the
   * last update does.
   */
  lemma {:induction false} RunFrom(bs: seq<Bag>, us: seq<Update>, env: Env,
                                   persist: (FoodEventDraft, Condition) -> PersistedFoodEvent, k: nat, last: Effect)
    requires |bs| == |us| && k < |us|
    requires forall i: nat :: i < |us| - 1 ==> Chained(bs, us, env, persist, i)
    requires last == Step(bs[|us| - 1], us[|us| - 1], env, persist)
    ensures var r := Run(bs[k], Under(us[k..], env), persist);
            r.bag == last.bag && r.persisted == last.persisted
    decreases |us| - k
  {
    var evs := Under(us[k..], env);
    assert evs[0] == (us[k], env);
    if k < |us| - 1 {
      assert Chained(bs, us, env, persist, k);
      assert evs[1..] == Under(us[k + 1..], env);
      RunFrom(bs, us, env, persist, k + 1, last);
    } else {
      assert evs[1..] == [];
    }
  }
}
