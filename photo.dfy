/**
 * Photo intake (`bot/handlers/photo.py`). Downloading the photo and the
 * recognition service are outside the model: the download arrives as an
 * optional image (absent when it raised), and the three recognition calls as
 * functions whose absent result stands for a raised exception.
 */
module Photo {
  import opened Optional
  import opened Domain
  import opened Time
  import opened Fsm

  type Image = seq<bv8>

  /** `PhotoIntakeService`: `classify_image`, `ocr_ingredients`, `dish_to_ingredients`. */
  datatype PhotoIntake = PhotoIntake(
    classify: Image -> Option<string>,
    ocrIngredients: Image -> Option<seq<string>>,
    dishToIngredients: Image -> Option<seq<string>>)

  /** The `try` block of `handle_photo`: OCR for an ingredient label, dish-to-ingredients otherwise. */
  function Recognize(intake: PhotoIntake, image: Image): Option<seq<string>> {
    match intake.classify(image)
    case None => None
    case Some(kind) => if kind == "ingredients" then intake.ocrIngredients(image) else intake.dishToIngredients(image)
  }

  /**
   * `handle_photo`: `botPresent` is `message.bot is not None`, `photos` the
   * number of sizes in `message.photo`, `download` the downloaded bytes.
   */
  function HandlePhotoEffect(b: Bag, botPresent: bool, photos: nat, download: Option<Image>,
                             intake: PhotoIntake, now: Timestamp): Effect {
    if !botPresent then NoChange(b, [Answer(BotMissing)])
    else if photos == 0 then NoChange(b, [Answer(PhotoMissing)])
    else if download.None? then NoChange(b, [Answer(DownloadFailed)])
    else
      match Recognize(intake, download.value)
      case None => NoChange(b, [Answer(RecognitionUnavailable)])
      case Some(ingredients) =>
        if ingredients == [] then NoChange(b, [Answer(NoIngredients)])
        else
          NoChange(Bag(Some(AddingFoods), Some(AppendFoods(FreshDraft(now), ingredients)), None),
                   [Answer(Recognized(ingredients))])
  }

  method HandlePhoto(ctx: FsmContext, botPresent: bool, photos: nat, download: Option<Image>,
                     intake: PhotoIntake, now: Timestamp) returns (out: seq<Output>)
    modifies ctx
    ensures var e := HandlePhotoEffect(old(ctx.Snapshot()), botPresent, photos, download, intake, now);
            ctx.Snapshot() == e.bag && out == e.out
  {
    if !botPresent {
      out := [Answer(BotMissing)];
      return;
    }
    if photos == 0 {
      out := [Answer(PhotoMissing)];
      return;
    }
    if download.None? {
      out := [Answer(DownloadFailed)];
      return;
    }
    var image := download.value;
    var ingredients: seq<string>;
    var kind := intake.classify(image);
    if kind.None? {
      out := [Answer(RecognitionUnavailable)];
      return;
    }
    var found := if kind.value == "ingredients" then intake.ocrIngredients(image)
                 else intake.dishToIngredients(image);
    if found.None? {
      out := [Answer(RecognitionUnavailable)];
      return;
    }
    ingredients := found.value;
    if ingredients == [] {
      out := [Answer(NoIngredients)];
      return;
    }
    var draft := AppendFoods(FreshDraft(now), ingredients);
    ctx.Clear();
    ctx.UpdateDraft(draft);
    ctx.SetState(AddingFoods);
    out := [Answer(Recognized(ingredients))];
  }
}
