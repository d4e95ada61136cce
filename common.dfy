/** The global `/cancel` command (`bot/handlers/common.py`), which has no state filter. */
module Common {
  import opened Optional
  import opened Fsm

  function CmdCancelEffect(b: Bag): Effect {
    if b.state.None? then NoChange(b, [Answer(NothingRecorded)])
    else NoChange(Empty, [Answer(DialogCancelled)])
  }

  /** `cmd_cancel`. */
  method CmdCancel(ctx: FsmContext) returns (out: seq<Output>)
    modifies ctx
    ensures var e := CmdCancelEffect(old(ctx.Snapshot())); ctx.Snapshot() == e.bag && out == e.out
  {
    var current := ctx.state;
    if current.None? {
      out := [Answer(NothingRecorded)];
      return;
    }
    ctx.Clear();
    out := [Answer(DialogCancelled)];
  }
}
