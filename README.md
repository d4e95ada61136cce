# Food tracker bot: the meal-logging dialogue, in Dafny

This project models the core of a Telegram bot that logs meals and how the
user felt afterwards. It then proves properties of that model.

- **The dialogue.** The user types `/add` or presses "add food" and enters
  ingredient lines. The user then presses `finish` and `confirm`, and answers
  three questions: bloating, diarrhea and a well-being score. After the last
  answer, the draft and the answers go to `persist_event`. `/cancel`, the cancel
  buttons and a photo of a dish or an ingredient label also move the session.
- **The services.** `ConditionService` turns the answers into a Markdown
  file with YAML frontmatter. `FoodsService` makes sure that every food has
  a catalog note.
- **The training script.** It reads those files back, cleans the
  `[[...]]` back-links, joins foods with conditions by file stem, and refuses
  to train on too little data.

The model is laid out by source file:

| Dafny module | source |
|---|---|
| `Callbacks` (callbacks.dfy) | `bot/ui/callbacks.py`: the closed sets of button payloads |
| `Domain` (domain.dfy) | the records and state names the handlers use |
| `Time` (time.dfy) | `datetime` and the zero-padded `strftime` patterns |
| `Text` (text.dfy) | the Python `str` operations: `strip`, `splitlines`, `find`, `lower` |
| `Fsm` (fsm.dfy) | the session (`FSMContext`), as a class with `state`, `draft` and `condition` fields |
| `FoodEvents` (food_event_service.dfy) | `persist_event`, recorded as a list of calls |
| `AddFood` (add_food.dfy) | `bot/handlers/add_food.py` |
| `Common` (common.dfy) | `bot/handlers/common.py` |
| `Photo` (photo.dfy) | `bot/handlers/photo.py` |
| `Dispatch` (dispatch.dfy) | which handler an update reaches, in router order; one step and a whole run |
| `FlowProperties` (flow_properties.dfy) | the dialogue's invariants and transition lemmas |
| `FileStore` (file_store.dfy) | the file store, a map from relative paths to contents |
| `Conditions` (condition_service.dfy) | `bot/services/condition_service.py` |
| `Foods` (foods_service.dfy) | `bot/services/foods_service.py` |
| `Training` (train_bloating_model.dfy) | `scripts/train_bloating_model.py` |

Each handler is a method that takes the session object. It works step by step, as
the source does (`clear`, `update_data`, `set_state`), and its postcondition
states the new session and the replies. It states them as a pure `...Effect`
function of the old session. `Dispatch.Step` routes one update and applies
that function. `Dispatch.Run` folds a sequence of updates. The lemmas in
`FlowProperties` are stated over `Step` and `Run`.

A reply is recorded with its kind and a constructor naming its message; the
Russian texts are not modelled:

- `Answer` is a chat message.
- `Toast` is a button acknowledgement.
- `Alert` is an acknowledgement shown as an alert.

## Model

| member | source | states |
|---|---|---|
| AddFood.StartFlow | bot/handlers/add_food.py:61-70 | from any session, clears everything, stores a draft with no foods and `started_at = now`, sets `adding_foods`, one reply |
| AddFood.CmdAdd | bot/handlers/add_food.py:50-52 | `/add` runs `_start_flow` |
| AddFood.CbStart | bot/handlers/add_food.py:55-58 | the start button acknowledges, then runs `_start_flow` |
| AddFood.ExtractLines | bot/handlers/add_food.py:240-241 | every line returned is non-empty and has no surrounding whitespace |
| AddFood.ExtractLinesEmptyIffBlank | bot/handlers/add_food.py:240-241 | no lines are extracted exactly when the whole text is whitespace |
| AddFood.ExtractLinesOfJoin | bot/handlers/add_food.py:240-241 | lines joined with `\n` that are non-empty, trimmed and hold no line boundary are extracted unchanged |
| AddFood.StripAll | bot/handlers/add_food.py:241 | one stripped line per input line, in order |
| AddFood.DropEmpty | bot/handlers/add_food.py:241 | only non-empty lines of the input are kept, and never more than the input has |
| AddFood.DropEmptyConcat | bot/handlers/add_food.py:241 | the filter goes line by line in order: on `a + b` it is the filter of `a` followed by the filter of `b` |
| AddFood.DropEmptySingle | bot/handlers/add_food.py:241 | one line is kept exactly when it is non-empty |
| AddFood.DropEmptyKeeps | bot/handlers/add_food.py:241 | every non-empty input line is among the kept ones |
| AddFood.LastFive | bot/handlers/add_food.py:87 | the preview is the last `min(5, n)` foods, a suffix of the list |
| AddFood.GetDraft | bot/handlers/add_food.py:244-250 | returns the stored draft, or a fresh one started `now`, which is then written into the session |
| AddFood.WithDraft | bot/handlers/add_food.py:247-249 | a missing draft is filled in; state and condition are untouched; an existing draft leaves the session as it was |
| AddFood.GetCondition | bot/handlers/add_food.py:253-256 | returns the stored condition, or an empty one, and writes nothing |
| AddFood.FinalCondition | bot/handlers/add_food.py:223-227 | answered booleans are kept and unanswered ones are false; a non-zero score is kept, and a missing or 0 score becomes 1 |
| AddFood.HandleFoodsInput | bot/handlers/add_food.py:73-91 | text with no lines gives one hint and no change; otherwise the draft's foods are extended by the extracted lines |
| AddFood.CbContinue | bot/handlers/add_food.py:94-96 | only an acknowledgement |
| AddFood.CbFinish | bot/handlers/add_food.py:99-113 | with no foods, one alert; otherwise moves to `confirm_finish` |
| AddFood.CbBackToAdding | bot/handlers/add_food.py:116-123 | back to `adding_foods` |
| AddFood.CbCancel | bot/handlers/add_food.py:126-136 | clears the session |
| AddFood.CbConfirmFinish | bot/handlers/add_food.py:139-151 | with no foods, one alert; otherwise opens the bloating question with an empty condition |
| AddFood.CancelCondition | bot/handlers/add_food.py:259-265 | clears the session |
| AddFood.CbConditionBloating | bot/handlers/add_food.py:154-177 | a mismatched symptom gives an alert; cancel clears; otherwise records `value == "yes"` and asks about diarrhea |
| AddFood.CbConditionDiarrhea | bot/handlers/add_food.py:180-204 | the same guards; records the answer and asks for well-being |
| AddFood.CbConditionWellBeing | bot/handlers/add_food.py:207-237 | an incomplete condition gives only an alert; otherwise exactly one `persist_event` call, then the session is cleared |
| Common.CmdCancel | bot/handlers/common.py:11-19 | with no state, one reply and no change; otherwise clears state and data, one reply |
| Photo.HandlePhoto | bot/handlers/photo.py:30-79 | follows the chain of early returns; on success, clears and stores a fresh draft holding the ingredients, in `adding_foods` |
| Dispatch.Dispatch | bot/app.py:51-58 | one update runs the handler the corrected routing `Route` selects (`/cancel` is tried before the add_food router; see ## Findings), and the session ends as `Step` says |
| Dispatch.WordEnd | bot/handlers/common.py:11 | the end of the command word: no whitespace before it, whitespace or the end of the text at it |
| FlowProperties.EmptyIsWf | bot/handlers/add_food.py:62 | the cleared session is a reachable one |
| FlowProperties.StepKeepsWf | bot/handlers/add_food.py:50-265 | every update keeps the session invariant `Wf`: each state holds the data it needs (a draft; from `confirm_finish` on, a non-empty one; the answers given so far) |
| FlowProperties.MessageKeepsWf | bot/handlers/add_food.py:73-91 | messages keep `Wf` |
| FlowProperties.ButtonKeepsWf | bot/handlers/add_food.py:94-151 | flow buttons keep `Wf` |
| FlowProperties.AnswerKeepsWf | bot/handlers/add_food.py:154-204 | yes/no answers keep `Wf` |
| FlowProperties.RunKeepsWf | bot/handlers/add_food.py:50-265 | any run of updates keeps `Wf` |
| FlowProperties.PersistOnlyOnWellBeing | bot/handlers/add_food.py:228-231 | at most one `persist_event` per update, only for a well-being press in `ask_condition_well_being`, after which the session is clear |
| FlowProperties.WellBeingPersistsOnce | bot/handlers/add_food.py:216-237 | in a reachable well-being state, the score persists the draft with the built condition once, clears the session, and the reply carries `len(result.foods)` |
| FlowProperties.IncompleteWellBeingOnlyAlerts | bot/handlers/add_food.py:218-220 | an unanswered question means one alert and an unchanged session |
| FlowProperties.NoPersistWithoutWellBeing | bot/handlers/add_food.py:230 | a run without a well-being press never persists |
| FlowProperties.PersistedDraftsNonEmpty | bot/handlers/add_food.py:142-144 | every draft persisted in a run from a reachable session has foods |
| FlowProperties.CommandWords | bot/handlers/common.py:11 | `/add` and `/cancel` are read as the commands `add` and `cancel` |
| FlowProperties.StartClearsSession | bot/handlers/add_food.py:50-65 | `/add` from any session gives `adding_foods` with an empty fresh draft and no condition |
| FlowProperties.FoodsInputAppends | bot/handlers/add_food.py:74-85 | no lines: unchanged, one hint; otherwise `foods_raw` becomes the old list followed by the lines, `started_at` kept |
| FlowProperties.PlainTextWhileAddingIsFoodInput | bot/handlers/add_food.py:73 | in `adding_foods`, every message except `/start`, `/cancel` and `/add` is food input |
| FlowProperties.DraftOnlyGrows | bot/handlers/add_food.py:50-265 | except where the flow starts over, the foods list only grows and `started_at` never changes |
| FlowProperties.FinishEmptyAlerts | bot/handlers/add_food.py:101-104 | `finish` with no foods: one alert, state unchanged |
| FlowProperties.FinishMovesToConfirm | bot/handlers/add_food.py:106-107 | `finish` with foods moves to `confirm_finish` and keeps the draft |
| FlowProperties.BackKeepsFoods | bot/handlers/add_food.py:116-123 | `back` returns to `adding_foods` with the draft unchanged |
| FlowProperties.ConfirmEmptyAlerts | bot/handlers/add_food.py:141-144 | `confirm` with no foods: one alert, state unchanged |
| FlowProperties.ConfirmOpensQuestions | bot/handlers/add_food.py:146-148 | `confirm` with foods opens the bloating question with an empty condition |
| FlowProperties.MismatchRejected | bot/handlers/add_food.py:163-165 | an answer to the other question: one alert, nothing changes |
| FlowProperties.AnswerCancelClears | bot/handlers/add_food.py:166-168 | a cancel answer clears the session and persists nothing |
| FlowProperties.AnswerRecorded | bot/handlers/add_food.py:170-173 | a yes/no answer is stored as `value == "yes"` and the next question opens |
| FlowProperties.CancelButtonClears | bot/handlers/add_food.py:126-136 | the cancel button in `adding_foods` or `confirm_finish` clears everything |
| FlowProperties.QuestionCancelClears | bot/handlers/add_food.py:259-265 | cancelling either yes/no question clears everything |
| FlowProperties.CmdCancelContract | bot/handlers/common.py:13-19 | both branches of `/cancel`, each with exactly one reply |
| FlowProperties.CancelCommandAlwaysRouted | bot/handlers/common.py:11 | with cancel routed first, `/cancel` reaches `cmd_cancel` in every state |
| FlowProperties.CancelCommandClears | bot/handlers/common.py:11-19 | from a reachable session, `/cancel` leaves it empty and persists nothing |
| FlowProperties.CancelCommandSwallowedAsWritten | bot/app.py:51-56 | with the routers in registration order, `/cancel` in `adding_foods` is taken as a food line |
| FlowProperties.CancelIsCommandLine | bot/handlers/common.py:11 | `/cancel` is both the cancel command and a line `_extract_lines` keeps |
| FlowProperties.RoutesDifferOnlyOnCancel | bot/app.py:51-56 | the two routings agree on every update except `/cancel` |
| FlowProperties.RunAsWrittenAgrees | bot/app.py:51-56 | a whole run with no `/cancel` command ends the same way under the source's routing as under the corrected one, so the run-level lemmas hold of the source on such runs |
| FlowProperties.PhotoGuards | bot/handlers/photo.py:32-38 | no bot or no photo: one reply, no change |
| FlowProperties.PhotoDownloadFailure | bot/handlers/photo.py:40-48 | a failed download: one reply, session untouched |
| FlowProperties.RecognizerSelection | bot/handlers/photo.py:51-57 | kind `"ingredients"` selects OCR, any other kind dish-to-ingredients |
| FlowProperties.PhotoNothingRecognized | bot/handlers/photo.py:58-68 | a recognition failure or an empty list: one reply, no change |
| FlowProperties.PhotoStartsDraft | bot/handlers/photo.py:70-74 | success: a fresh draft with exactly the ingredients, in `adding_foods`, no condition |
| FlowProperties.DialoguePersistsOnce | bot/handlers/add_food.py:50-237 | the whole dialogue (`/add`, the foods, finish, confirm, two answers, a score) ends with a clear session and one `persist_event` call with the typed foods and the answers |
| FlowProperties.DialoguePersistsOnceAsWritten | bot/app.py:51-56 | the same dialogue, routed in the source's registration order, ends the same way |
| FlowProperties.TypedFoodsAppended | bot/handlers/add_food.py:73-85 | foods typed as one message in `adding_foods` are appended exactly as typed |
| FoodEvents.FoodEventService.PersistEvent | bot/handlers/add_food.py:230 | each call is recorded with its arguments |
| Fsm.FsmContext.Clear | bot/handlers/add_food.py:62 | `state.clear()` drops the state and the whole data bag |
| Fsm.FsmContext.UpdateDraft | bot/handlers/add_food.py:64 | `update_data(draft=...)` changes only the draft |
| Fsm.FsmContext.UpdateCondition | bot/handlers/add_food.py:148 | `update_data(condition=...)` changes only the condition |
| Fsm.FsmContext.SetState | bot/handlers/add_food.py:65 | `set_state` changes only the state |
| Domain.AppendFoods | bot/handlers/add_food.py:84 | `append_foods` appends in order and keeps `started_at` |
| Domain.FreshDraft | bot/handlers/add_food.py:63 | a new draft starts `now` with no foods |
| Time.StampSlug | bot/services/condition_service.py:33 | `%Y-%m-%d_%H-%M-%S`: 19 characters, the date first, separators at 10, 13 and 16 |
| Time.SlugRoundTrip | bot/services/condition_service.py:33 | the slug can be read back into the timestamp |
| Time.SlugInjective | bot/services/condition_service.py:33 | different timestamps give different slugs |
| Time.DateText | bot/services/condition_service.py:38 | `%Y-%m-%d`: ten characters with dashes at 4 and 7 |
| Time.TimeText | bot/services/condition_service.py:39 | `%H:%M`: five characters, no seconds |
| Time.Pad2RoundTrip | bot/services/condition_service.py:33 | two-digit zero padding loses nothing |
| Time.Pad4RoundTrip | bot/services/condition_service.py:33 | four-digit zero padding loses nothing |
| Conditions.BuildFilename | bot/services/condition_service.py:32-34 | the slug, `_`, the short id, `.md` |
| Conditions.FilenameRoundTrip | bot/services/condition_service.py:32-34 | the name can be read back into the timestamp and the id |
| Conditions.FilenameInjective | bot/services/condition_service.py:27-29 | names are equal exactly when timestamp and id are, so only a repeated (timestamp, id) overwrites |
| Conditions.PayloadShape | bot/services/condition_service.py:37-45 | the keys come in the order `date`, `time`, `symptoms`, then `bloating`, `diarrhea`, `well_being`; the values are the booleans and the score |
| Conditions.PayloadMatchesFilename | bot/services/condition_service.py:38-39 | `date` is the file name's date; `time` is its hour and minute joined by `:` |
| Conditions.RenderMarkdown | bot/services/condition_service.py:46-47 | starts with `---\n`, ends with `\n---\n`, and between them holds the stripped YAML dump |
| Conditions.ConditionService.constructor | bot/services/condition_service.py:20-22 | the log directory is `ConditionLog` |
| Conditions.ConditionService.Persist | bot/services/condition_service.py:24-30 | writes the rendered record under `ConditionLog/<filename>` and returns that content with the path the store gave back |
| FileStore.Store.WriteText | bot/services/condition_service.py:29 | `write_text` overwrites the entry and returns its full path |
| FileStore.Store.EnsureFile | bot/services/foods_service.py:20 | `ensure_file` changes no existing entry and returns a path holding the default content |
| FileStore.Resolve | bot/services/foods_service.py:20 | the entry chosen is free or already holds the content, and starts with the intended path |
| FileStore.ResolveFree | bot/services/foods_service.py:20 | an intended path that is free or already holds the content is used as it is |
| FileStore.ResolveAgain | bot/services/foods_service.py:20 | after a note is created, asking again settles on the same entry |
| Foods.DefaultNote | bot/services/foods_service.py:20 | `# name\n` |
| Foods.DefaultNoteInjective | bot/services/foods_service.py:20 | different names give different note bodies |
| Foods.FoodsService.constructor | bot/services/foods_service.py:11-13 | the notes directory is `Foods` |
| Foods.FoodsService.EnsureNotes | bot/services/foods_service.py:15-22 | one `ensure_file` per name, in input order, one path per name |
| Foods.EnsureAll | bot/services/foods_service.py:17-21 | as many entries as names, duplicates included |
| Foods.EnsureAllKeeps | bot/services/foods_service.py:20 | existing notes are never overwritten |
| Foods.EnsureAllOnlyAdds | bot/services/foods_service.py:20 | nothing is created except the entries returned |
| Foods.EnsureAllHolds | bot/services/foods_service.py:18-20 | entry `i` holds `# names[i]\n` and starts with `Foods/<sanitize(names[i])>.md` |
| Foods.EnsureAllConcat | bot/services/foods_service.py:17 | the loop over `a + b` is the loop over `a`, then over `b` |
| Foods.DistinctNamesDistinctNotes | bot/services/foods_service.py:18-20 | two different names never share a note, even when they sanitize alike |
| Foods.SameNameSameNote | bot/services/foods_service.py:17-21 | a repeated name gets the note its first occurrence got |
| Foods.Idempotent | bot/services/foods_service.py:15-22 | running again with the same names changes nothing and returns the same entries |
| Training.FrontmatterAbsent | scripts/train_bloating_model.py:44-48 | nothing is parsed exactly when the text does not start with `---` or has no `\n---` at or after index 3 |
| Training.FrontmatterSlice | scripts/train_bloating_model.py:46-49 | otherwise the text parsed is `text[3:end]`, `end` being the first `\n---` at or after 3 |
| Training.ConditionFrontmatterRoundTrip | scripts/train_bloating_model.py:42-49 | the frontmatter `ConditionService` writes is read back as its YAML body, when the body holds no `\n---` |
| Training.CleanFoodEntry | scripts/train_bloating_model.py:56-60 | the result has no surrounding whitespace |
| Training.UnwrapRewraps | scripts/train_bloating_model.py:58-59 | when both halves of `[[`…`]]` are there, exactly one wrapper is removed: putting it back gives the value again |
| Training.WrappedLength | scripts/train_bloating_model.py:58-59 | a wrapped value has at least four characters, so the two halves never overlap |
| Training.CleanUnwrapsBacklink | scripts/train_bloating_model.py:56-60 | cleaning `[[name]]` gives the stripped, lower-cased name |
| Training.CleanUnwrapped | scripts/train_bloating_model.py:56-60 | without a wrapper only the whitespace and the case change |
| Training.BuildDataset | scripts/train_bloating_model.py:88-98 | the loop produces the dataset `DatasetOf` describes |
| Training.DatasetIsJoin | scripts/train_bloating_model.py:93-97 | `x` and `y` have one entry per joined item: its ingredients, and 1 exactly when its condition is true, else 0 |
| Training.JoinedMembers | scripts/train_bloating_model.py:93-95 | an item takes part exactly when it is in `foods` and its stem has a condition |
| Training.JoinedConcat | scripts/train_bloating_model.py:93 | the join keeps the iteration order of `foods` |
| Training.DatasetLabelsBinary | scripts/train_bloating_model.py:97 | `x` and `y` have equal length and the labels are 0 or 1 |
| Training.RefusedIff | scripts/train_bloating_model.py:104-106 | training is refused exactly when there are fewer than two examples or all labels agree |

## Left out

- Transport and UI are not modelled: aiogram's internals, `async`, the keyboards and the wording of the replies. A reply is recorded as its kind and a message constructor.
- `bot/handlers/start.py` is not part of this model. Its `/start` command and its "condition" button are routed to `NotInCore`, which changes nothing here.
- Wiring and configuration are not modelled: the dependency setters in `add_food.py`, `bot/config.py`, and the service lookups in `photo.py`.
- Bot mentions (`/add@botname`) and custom command prefixes are not modelled; `Dispatch.CommandName` reads only the first word after `/`.
- The well-being score is an unbounded `int`, as in `ConditionWellBeingAction`. The 1–10 range of the keyboard is not assumed.
- A `persist_event` that raises is not modelled. The service is taken to return, so the `persisting` state is never seen after a handler.
- `Fsm` models only the two data keys the core uses, `draft` and `condition`. The storage behind `FSMContext` is not modelled.
- The photo download, the recognition calls and the clock are inputs. An exception is an absent result.
- `bot/domain/models.py` is not part of this model. `append_foods` is taken to append, and `is_complete` to mean that all three answers are set.
- `bot/services/food_event_service.py` is not part of this model. `persist_event` records its arguments and returns a result supplied from outside.
- `bot/domain/normalize.py` (`sanitize_filename`) is not part of this model. It is a function parameter.
- `bot/services/file_store.py` is not part of this model. The stand-in store is a map. It does not model path confinement to the data root, directory creation, or atomic writes.
- FileStore.Resolve: the collision suffix (`~` appended until the path is free or already holds the same content) stands in for the store's own scheme. A note edited by hand, so that it no longer holds the default content, would therefore be treated as a collision. `Foods.Idempotent` and `Foods.IdempotentPrefix` rest on this stand-in (through `FileStore.ResolveAgain`): with another collision scheme they hold only as far as that scheme settles on the same entry when asked again.
- `yaml.safe_dump` is a function parameter of `ConditionService`. `yaml.safe_load` and the `or {}` fallback that follows the slicing are not modelled: `Training.FrontmatterText` stops at the text handed to the parser.
- The file reading in `load_food_events` and `load_conditions` is not modelled, and neither is the comprehension in `load_food_events` that cleans each entry. Their values arrive as the inputs of `BuildDataset`.
- sklearn, the train/test split and the metrics in `train_model` are not modelled. Only the guard is.
- Text.LowerChar: lower-cases only ASCII `A`–`Z` and the Cyrillic capitals `Ѐ`–`Я`. Python's full Unicode `str.lower` is wider.
- Time.Pad4: pads the year to four digits. Whether `strftime("%Y")` pads years below 1000 depends on the platform.
- The time zone is not modelled. The time source hands over a wall-clock `Timestamp`.
- The end-to-end test in `tests/test_fsm_flow.py` is covered by `FlowProperties.DialoguePersistsOnce` for every list of food lines rather than for its literal inputs.

## Findings

| source | as written | input that shows it | evidently intended | confidence | as-written member | corrected member |
|---|---|---|---|---|---|---|
| bot/app.py:51-56 with bot/handlers/add_food.py:73 and bot/handlers/common.py:11 | the routers are included in the order start, add_food, photo, common, and `handle_foods_input` matches every message in `adding_foods` | the message `/cancel` while in `adding_foods`: it is appended to the draft as the food "/cancel" and the session is not cleared | `/cancel` is accepted in every state, as its missing state filter says | medium, not executed | FlowProperties.CancelCommandSwallowedAsWritten | FlowProperties.CancelCommandAlwaysRouted |

`Dispatch.RouteAsWritten` is the routing in registration order. `Dispatch.Route`
is the corrected routing, which tries `/cancel` before the add_food router.
The rest of the model uses `Dispatch.Route`. `FlowProperties.RoutesDifferOnlyOnCancel`
shows that the two agree on every other update, and `FlowProperties.RunAsWrittenAgrees` extends this to whole runs without `/cancel`.
