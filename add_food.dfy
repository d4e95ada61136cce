/**
 * The meal-logging dialogue (`bot/handlers/add_food.py`). Each handler is a
 * method that works on the session step by step, as the source does
 * (`clear`, `update_data`, `set_state`, replies), and is proved to leave the
 * session in the state given by its pure counterpart `...Effect`, which the
 * dispatcher and the dialogue lemmas reason about.
 */
module AddFood {
  import opened Optional
  import opened Callbacks
  import opened Domain
  import opened Text
  import opened Time
  import opened Fsm
  import opened FoodEvents

  // ---------------------------------------------------------------- pure part

  /** `[l.strip() for l in lines]`. */
  function StripAll(lines: seq<string>): (r: seq<string>)
    ensures |r| == |lines| && forall i :: 0 <= i < |lines| ==> r[i] == Strip(lines[i])
  {
    seq(|lines|, i requires 0 <= i < |lines| => Strip(lines[i]))
  }

  /** `[l for l in lines if l]`: the non-empty strings, in order. */
  function DropEmpty(lines: seq<string>): (r: seq<string>)
    ensures |r| <= |lines|
    ensures forall i :: 0 <= i < |r| ==> r[i] != [] && r[i] in lines
  {
    if lines == [] then []
    else if lines[0] == [] then DropEmpty(lines[1..])
    else [lines[0]] + DropEmpty(lines[1..])
  }

  /** The filter works line by line: on `a + b` it keeps what it keeps of `a`, then of `b`. */
  lemma {:induction false} DropEmptyConcat(a: seq<string>, b: seq<string>)
    ensures DropEmpty(a + b) == DropEmpty(a) + DropEmpty(b)
    decreases |a|
  {
    if a == [] {
      assert a + b == b;
    } else {
      var ab := a + b;
      assert ab != [] && ab[0] == a[0] && ab[1..] == a[1..] + b;
      DropEmptyConcat(a[1..], b);
      if a[0] == [] {
        assert DropEmpty(ab) == DropEmpty(a[1..] + b);
      } else {
        assert DropEmpty(ab) == [a[0]] + DropEmpty(a[1..] + b);
        assert [a[0]] + (DropEmpty(a[1..]) + DropEmpty(b)) == ([a[0]] + DropEmpty(a[1..])) + DropEmpty(b);
      }
    }
  }

  /** A single line is kept exactly when it is non-empty. */
  lemma DropEmptySingle(l: string)
    ensures DropEmpty([l]) == if l == [] then [] else [l]
  {
    assert [l][1..] == [];
  }

  /** No non-empty line is lost. */
  lemma DropEmptyKeeps(lines: seq<string>, i: nat)
    requires i < |lines| && lines[i] != []
    ensures lines[i] in DropEmpty(lines)
  {
    var a, b := lines[..i], lines[i + 1..];
    assert lines == a + [lines[i]] + b;
    DropEmptyConcat(a + [lines[i]], b);
    DropEmptyConcat(a, [lines[i]]);
    DropEmptySingle(lines[i]);
    assert DropEmpty(lines) == DropEmpty(a) + [lines[i]] + DropEmpty(b);
  }

  /** `_extract_lines`: the stripped lines of `text`, blank ones dropped. */
  function ExtractLines(text: string): (r: seq<string>)
    ensures forall i :: 0 <= i < |r| ==> r[i] != [] && Trimmed(r[i])
  {
    DropEmpty(StripAll(SplitLines(text)))
  }

  lemma StripAllOfTrimmed(lines: seq<string>)
    requires forall k :: 0 <= k < |lines| ==> Trimmed(lines[k])
    ensures StripAll(lines) == lines
  {
    forall k | 0 <= k < |lines| ensures StripAll(lines)[k] == lines[k] {
      StripOfTrimmed(lines[k]);
    }
  }

  lemma {:induction false} DropEmptyOfNonEmpty(lines: seq<string>)
    requires forall k :: 0 <= k < |lines| ==> lines[k] != []
    ensures DropEmpty(lines) == lines
    decreases |lines|
  {
    if lines != [] {
      DropEmptyOfNonEmpty(lines[1..]);
      assert lines == [lines[0]] + lines[1..];
    }
  }

  predicate AllEmpty(ls: seq<string>) { forall k :: 0 <= k < |ls| ==> ls[k] == [] }

  lemma AllEmptyCons(l: string, ls: seq<string>)
    ensures AllEmpty([l] + ls) <==> l == [] && AllEmpty(ls)
  {
    assert forall k :: 0 <= k < |ls| ==> ([l] + ls)[k + 1] == ls[k];
    assert ([l] + ls)[0] == l;
  }

  lemma {:induction false} DropEmptyEmptyIff(lines: seq<string>)
    ensures DropEmpty(lines) == [] <==> AllEmpty(lines)
    decreases |lines|
  {
    if lines != [] {
      DropEmptyEmptyIff(lines[1..]);
      assert lines == [lines[0]] + lines[1..];
      AllEmptyCons(lines[0], lines[1..]);
    }
  }

  lemma StripAllEmptyIffBlank(lines: seq<string>)
    ensures AllEmpty(StripAll(lines)) <==> AllBlank(lines)
  {
    forall k | 0 <= k < |lines| ensures StripAll(lines)[k] == [] <==> AllSpace(lines[k]) {
      StripEmptyIffBlank(lines[k]);
    }
  }

  /** `_extract_lines` finds nothing exactly when the text is all whitespace. */
  lemma ExtractLinesEmptyIffBlank(text: string)
    ensures ExtractLines(text) == [] <==> AllSpace(text)
  {
    var lines := SplitLines(text);
    DropEmptyEmptyIff(StripAll(lines));
    StripAllEmptyIffBlank(lines);
    SplitLinesBlankIffBlank(text);
  }

  /** A line `_extract_lines` keeps as it is: non-empty, no surrounding whitespace, no line boundary. */
  predicate FoodLine(l: string) { l != [] && Trimmed(l) && NoLineBreak(l) }

  /**
   * `_extract_lines` undoes `"\n".join`: lines that are non-empty, carry no
   * surrounding whitespace and no line boundary come back unchanged.
   */
  lemma ExtractLinesOfJoin(lines: seq<string>)
    requires forall k :: 0 <= k < |lines| ==> FoodLine(lines[k])
    ensures ExtractLines(JoinLines(lines)) == lines
  {
    if lines != [] {
      SplitLinesOfJoin(lines);
    }
    StripAllOfTrimmed(lines);
    DropEmptyOfNonEmpty(lines);
  }

  /** `draft.foods_raw[-5:]`. */
  function LastFive(s: seq<string>): (r: seq<string>)
    ensures |r| == if |s| < 5 then |s| else 5
    ensures s == s[..|s| - |r|] + r
  {
    if |s| <= 5 then s else s[|s| - 5..]
  }

  /** The draft `_get_draft` returns: the stored one, or a fresh draft started `now`. */
  function DraftOf(b: Bag, now: Timestamp): FoodEventDraft {
    b.draft.GetOr(FreshDraft(now))
  }

  /** The bag after `_get_draft`: a missing draft has been written in. */
  function WithDraft(b: Bag, now: Timestamp): (r: Bag)
    ensures r.state == b.state && r.condition == b.condition && r.draft == Some(DraftOf(b, now))
    ensures b.draft.Some? ==> r == b
  {
    b.(draft := Some(DraftOf(b, now)))
  }

  /** The condition `_get_condition` returns: the stored one, or an empty one (nothing is written). */
  function ConditionOf(b: Bag): ConditionDraft {
    b.condition.GetOr(EmptyCondition)
  }

  /** `Condition(bloating=bool(..), diarrhea=bool(..), well_being=well_being or 1)`. */
  function FinalCondition(c: ConditionDraft): (r: Condition)
    ensures c.bloating.Some? ==> r.bloating == c.bloating.value
    ensures c.diarrhea.Some? ==> r.diarrhea == c.diarrhea.value
    ensures c.bloating.None? ==> !r.bloating
    ensures c.diarrhea.None? ==> !r.diarrhea
    ensures r.wellBeing != 0
    ensures c.wellBeing.Some? && c.wellBeing.value != 0 ==> r.wellBeing == c.wellBeing.value
    ensures c.wellBeing.GetOr(0) == 0 ==> r.wellBeing == 1
  {
    var w := c.wellBeing.GetOr(0);
    Condition(Truthy(c.bloating), Truthy(c.diarrhea), if w == 0 then 1 else w)
  }

  function StartFlowEffect(b: Bag, now: Timestamp): Effect {
    NoChange(Bag(Some(AddingFoods), Some(FreshDraft(now)), None), [Answer(EnterFoods)])
  }

  function CbStartEffect(b: Bag, now: Timestamp): Effect {
    var e := StartFlowEffect(b, now);
    e.(out := [Toast(None)] + e.out)
  }

  function FoodsInputEffect(b: Bag, text: Option<string>, now: Timestamp): Effect {
    var foods := ExtractLines(text.GetOr(""));
    if foods == [] then NoChange(b, [Answer(NoFoodsFound)])
    else
      var d := AppendFoods(DraftOf(b, now), foods);
      NoChange(b.(draft := Some(d)), [Answer(Added(|foods|, |d.foodsRaw|, LastFive(d.foodsRaw)))])
  }

  const ContinueReplies := [Toast(Some(KeepTyping))]

  function FinishEffect(b: Bag, now: Timestamp): Effect {
    var d := DraftOf(b, now);
    var b1 := WithDraft(b, now);
    if d.foodsRaw == [] then NoChange(b1, [Alert(AddFoodsFirst)])
    else NoChange(b1.(state := Some(ConfirmFinish)), [Toast(None), Answer(ReviewFoods(d.foodsRaw))])
  }

  function BackEffect(b: Bag): Effect {
    NoChange(b.(state := Some(AddingFoods)), [Toast(None), Answer(EnterMoreFoods)])
  }

  function CancelEffect(b: Bag): Effect {
    NoChange(Empty, [Toast(None), Answer(RecordCancelled)])
  }

  function ConfirmEffect(b: Bag, now: Timestamp): Effect {
    var d := DraftOf(b, now);
    var b1 := WithDraft(b, now);
    if d.foodsRaw == [] then NoChange(b1, [Alert(AddAtLeastOne)])
    else NoChange(b1.(state := Some(AskConditionBloating), condition := Some(EmptyCondition)),
                  [Toast(None), Answer(AskBloating)])
  }

  function CancelConditionEffect(b: Bag): Effect {
    NoChange(Empty, [Toast(None), Answer(ConditionCancelled)])
  }

  /**
   * The shared shape of `cb_condition_bloating` (`asked == Bloating`) and
   * `cb_condition_diarrhea` (`asked == Diarrhea`).
   */
  function AnswerEffect(b: Bag, asked: Symptom, a: ConditionBoolAction): Effect {
    if a.symptom != asked then NoChange(b, [Alert(OtherQuestion)])
    else if a.value == CancelAnswer then CancelConditionEffect(b)
    else
      var c := ConditionOf(b);
      var v := a.value == Yes;
      if asked == Bloating then
        NoChange(b.(condition := Some(c.(bloating := Some(v))), state := Some(AskConditionDiarrhea)),
                 [Toast(None), Answer(AskDiarrhea)])
      else
        NoChange(b.(condition := Some(c.(diarrhea := Some(v))), state := Some(AskConditionWellBeing)),
                 [Toast(None), Answer(AskWellBeing)])
  }

  function WellBeingEffect(b: Bag, score: int, now: Timestamp,
                           persist: (FoodEventDraft, Condition) -> PersistedFoodEvent): Effect {
    var c := ConditionOf(b).(wellBeing := Some(score));
    if !IsComplete(c) then NoChange(b, [Alert(AnswerAll)])
    else
      var d := DraftOf(b, now);
      var model := FinalCondition(c);
      Effect(Empty, [Toast(None), Answer(Saved(|persist(d, model).foods|))], [(d, model)])
  }

  // ---------------------------------------------------------------- handlers

  /** `_get_draft`. */
  method GetDraft(ctx: FsmContext, now: Timestamp) returns (d: FoodEventDraft)
    modifies ctx
    ensures d == DraftOf(old(ctx.Snapshot()), now)
    ensures ctx.Snapshot() == WithDraft(old(ctx.Snapshot()), now)
  {
    if ctx.draft.None? {
      ctx.UpdateDraft(FreshDraft(now));
    }
    d := ctx.draft.value;
  }

  /** `_get_condition`: reads the session, never writes it. */
  method GetCondition(ctx: FsmContext) returns (c: ConditionDraft)
    ensures ctx.condition.Some? ==> c == ctx.condition.value
    ensures ctx.condition.None? ==> c == EmptyCondition
  {
    c := if ctx.condition.Some? then ctx.condition.value else ConditionDraft(None, None, None);
  }

  /** `_start_flow`. */
  method StartFlow(ctx: FsmContext, now: Timestamp) returns (out: seq<Output>)
    modifies ctx
    ensures var e := StartFlowEffect(old(ctx.Snapshot()), now); ctx.Snapshot() == e.bag && out == e.out
  {
    ctx.Clear();
    var draft := FoodEventDraft(now, []);
    ctx.UpdateDraft(draft);
    ctx.SetState(AddingFoods);
    out := [Answer(EnterFoods)];
  }

  /** `cmd_add`: the `/add` command. */
  method CmdAdd(ctx: FsmContext, now: Timestamp) returns (out: seq<Output>)
    modifies ctx
    ensures var e := StartFlowEffect(old(ctx.Snapshot()), now); ctx.Snapshot() == e.bag && out == e.out
  {
    out := StartFlow(ctx, now);
  }

  /** `cb_start`: the "add food" button, acknowledged first. */
  method CbStart(ctx: FsmContext, now: Timestamp) returns (out: seq<Output>)
    modifies ctx
    ensures var e := CbStartEffect(old(ctx.Snapshot()), now); ctx.Snapshot() == e.bag && out == e.out
  {
    var rest := StartFlow(ctx, now);
    out := [Toast(None)] + rest;
  }

  /** `handle_foods_input`; `text` is `message.text`, absent for non-text messages. */
  method HandleFoodsInput(ctx: FsmContext, text: Option<string>, now: Timestamp) returns (out: seq<Output>)
    modifies ctx
    ensures var e := FoodsInputEffect(old(ctx.Snapshot()), text, now); ctx.Snapshot() == e.bag && out == e.out
  {
    var foods := ExtractLines(if text.Some? then text.value else "");
    if foods == [] {
      out := [Answer(NoFoodsFound)];
      return;
    }
    var draft := GetDraft(ctx, now);
    draft := AppendFoods(draft, foods);
    ctx.UpdateDraft(draft);
    out := [Answer(Added(|foods|, |draft.foodsRaw|, LastFive(draft.foodsRaw)))];
  }

  /** `cb_continue`: only an acknowledgement. */
  method CbContinue() returns (out: seq<Output>)
    ensures out == [Toast(Some(KeepTyping))]
  {
    out := [Toast(Some(KeepTyping))];
  }

  /** `cb_finish`. */
  method CbFinish(ctx: FsmContext, now: Timestamp) returns (out: seq<Output>)
    modifies ctx
    ensures var e := FinishEffect(old(ctx.Snapshot()), now); ctx.Snapshot() == e.bag && out == e.out
  {
    var draft := GetDraft(ctx, now);
    if draft.foodsRaw == [] {
      out := [Alert(AddFoodsFirst)];
      return;
    }
    out := [Toast(None)];
    ctx.SetState(ConfirmFinish);
    out := out + [Answer(ReviewFoods(draft.foodsRaw))];
  }

  /** `cb_back_to_adding`. */
  method CbBackToAdding(ctx: FsmContext) returns (out: seq<Output>)
    modifies ctx
    ensures var e := BackEffect(old(ctx.Snapshot())); ctx.Snapshot() == e.bag && out == e.out
  {
    out := [Toast(None)];
    ctx.SetState(AddingFoods);
    out := out + [Answer(EnterMoreFoods)];
  }

  /** `cb_cancel`. */
  method CbCancel(ctx: FsmContext) returns (out: seq<Output>)
    modifies ctx
    ensures var e := CancelEffect(old(ctx.Snapshot())); ctx.Snapshot() == e.bag && out == e.out
  {
    out := [Toast(None)];
    ctx.Clear();
    out := out + [Answer(RecordCancelled)];
  }

  /** `cb_confirm_finish`. */
  method CbConfirmFinish(ctx: FsmContext, now: Timestamp) returns (out: seq<Output>)
    modifies ctx
    ensures var e := ConfirmEffect(old(ctx.Snapshot()), now); ctx.Snapshot() == e.bag && out == e.out
  {
    var draft := GetDraft(ctx, now);
    if draft.foodsRaw == [] {
      out := [Alert(AddAtLeastOne)];
      return;
    }
    out := [Toast(None)];
    ctx.SetState(AskConditionBloating);
    ctx.UpdateCondition(ConditionDraft(None, None, None));
    out := out + [Answer(AskBloating)];
  }

  /** `_cancel_condition`. */
  method CancelCondition(ctx: FsmContext) returns (out: seq<Output>)
    modifies ctx
    ensures var e := CancelConditionEffect(old(ctx.Snapshot())); ctx.Snapshot() == e.bag && out == e.out
  {
    out := [Toast(None)];
    ctx.Clear();
    out := out + [Answer(ConditionCancelled)];
  }

  /** `cb_condition_bloating`. */
  method CbConditionBloating(ctx: FsmContext, a: ConditionBoolAction) returns (out: seq<Output>)
    modifies ctx
    ensures var e := AnswerEffect(old(ctx.Snapshot()), Bloating, a); ctx.Snapshot() == e.bag && out == e.out
  {
    if a.symptom != Bloating {
      out := [Alert(OtherQuestion)];
      return;
    }
    if a.value == CancelAnswer {
      out := CancelCondition(ctx);
      return;
    }
    var condition := GetCondition(ctx);
    condition := condition.(bloating := Some(a.value == Yes));
    ctx.UpdateCondition(condition);
    ctx.SetState(AskConditionDiarrhea);
    out := [Toast(None), Answer(AskDiarrhea)];
  }

  /** `cb_condition_diarrhea`. */
  method CbConditionDiarrhea(ctx: FsmContext, a: ConditionBoolAction) returns (out: seq<Output>)
    modifies ctx
    ensures var e := AnswerEffect(old(ctx.Snapshot()), Diarrhea, a); ctx.Snapshot() == e.bag && out == e.out
  {
    if a.symptom != Diarrhea {
      out := [Alert(OtherQuestion)];
      return;
    }
    if a.value == CancelAnswer {
      out := CancelCondition(ctx);
      return;
    }
    var condition := GetCondition(ctx);
    condition := condition.(diarrhea := Some(a.value == Yes));
    ctx.UpdateCondition(condition);
    ctx.SetState(AskConditionWellBeing);
    out := [Toast(None), Answer(AskWellBeing)];
  }

  /** `cb_condition_well_being`: the last answer; on a complete draft, one `persist_event` call. */
  method CbConditionWellBeing(ctx: FsmContext, svc: FoodEventService, score: int, now: Timestamp)
    returns (out: seq<Output>)
    modifies ctx, svc
    ensures var e := WellBeingEffect(old(ctx.Snapshot()), score, now, svc.outcome);
            ctx.Snapshot() == e.bag && out == e.out && svc.calls == old(svc.calls) + e.persisted
  {
    var condition := GetCondition(ctx);
    condition := condition.(wellBeing := Some(score));
    if !IsComplete(condition) {
      out := [Alert(AnswerAll)];
      return;
    }
    var draft := GetDraft(ctx, now);
    var model := Condition(Truthy(condition.bloating), Truthy(condition.diarrhea),
                           if condition.wellBeing.value == 0 then 1 else condition.wellBeing.value);
    ctx.SetState(Persisting);
    var result := svc.PersistEvent(draft, model);
    ctx.Clear();
    out := [Toast(None), Answer(Saved(|result.foods|))];
  }
}
