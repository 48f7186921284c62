/** The handler behind one streaming response, and what happens to the reservation. */
module StreamSession {
  import opened Rows
  import opened Pump
  import opened StreamCourse

  class StreamHandler {
    const mode: Mode
    const frame: Framer
    const hasToken: bool
    const closeAt: nat
    var seqNo: int
    var trace: seq<Effect>
    var outputs: nat
    var canRelease: bool

    constructor (mode: Mode, frame: Framer, hasToken: bool, closeAt: nat)
      ensures this.mode == mode && this.frame == frame && this.hasToken == hasToken && this.closeAt == closeAt
      ensures seqNo == 1 && trace == [] && outputs == 0 && canRelease
    {
      this.mode := mode;
      this.frame := frame;
      this.hasToken := hasToken;
      this.closeAt := closeAt;
      seqNo := 1;
      trace := [];
      outputs := 0;
      canRelease := true;
    }

    ghost predicate Open()
      reads this
    {
      outputs == Outputs(trace) && outputs < closeAt
    }

    ghost predicate JustClosed()
      reads this
    {
      outputs == Outputs(trace) == closeAt && trace != [] && IsOutput(trace[|trace| - 1])
    }

    /** Stores an event under the given id, or under the counter, then hands it to the consumer. */
    method StoreAndYield(k: Kind, about: string, idVal: Option<int>) returns (closed: bool)
      requires Open()
      modifies this`seqNo, this`trace, this`outputs
      ensures var id := if idVal.Some? then idVal.value else old(seqNo);
              && trace == old(trace) + Emit(frame, k, about, id)
              && seqNo == (if old(seqNo) > id + 1 then old(seqNo) else id + 1)
      ensures if closed then JustClosed() else Open()
    {
      var target := if idVal.Some? then idVal.value else seqNo;
      var payload := frame(k, target, about);
      OutputsPush(trace, Append(k, target, about, payload));
      trace := trace + [Append(k, target, about, payload)];
      if seqNo < target + 1 {
        seqNo := target + 1;
      }
      OutputsPush(trace, Yield(payload));
      trace := trace + [Yield(payload)];
      outputs := outputs + 1;
      closed := outputs == closeAt;
    }

    method YieldKeepalive() returns (closed: bool)
      requires Open()
      modifies this`trace, this`outputs
      ensures trace == old(trace) + [Heartbeat]
      ensures if closed then JustClosed() else Open()
    {
      OutputsPush(trace, Heartbeat);
      trace := trace + [Heartbeat];
      outputs := outputs + 1;
      closed := outputs == closeAt;
    }

    method HandleRuntimeError(env: Env, cancelled: bool, cancelish: bool) returns (closed: bool)
      requires Open()
      modifies this`seqNo, this`trace, this`outputs
      ensures trace == old(trace) + AfterFault(mode, frame, env, cancelled || cancelish, old(seqNo))
      ensures if closed then JustClosed() else Open()
    {
      if cancelled || cancelish {
        closed := StoreAndYield(Cancel, "cancelled", Some(seqNo));
        return;
      }
      if mode.Conv? && !env.errorSaving {
        assert trace + [] == trace;
        return false;
      }
      closed := StoreAndYield(Failure, "harness_error", Some(seqNo));
    }

    method Note(e: Effect)
      requires Open() && !IsOutput(e)
      modifies this`trace
      ensures Open() && trace == old(trace) + [e]
    {
      OutputsPush(trace, e);
      trace := trace + [e];
    }

    /** The two events of a recorded finalization; the counter is advanced once more in between. */
    method ReportUsage() returns (closed: bool)
      requires Open()
      modifies this`seqNo, this`trace, this`outputs
      ensures Grew(old(trace), trace,
                   Emit(frame, Usage, "", old(seqNo)) + Emit(frame, Done, "", old(seqNo) + 2), closed)
      ensures if closed then JustClosed() else Open()
    {
      ghost var before := trace;
      ghost var first, rest := Emit(frame, Usage, "", seqNo), Emit(frame, Done, "", seqNo + 2);
      closed := StoreAndYield(Usage, "", Some(seqNo));
      assert trace == before + first;
      if closed {
        GrewAndClosed(before, trace, first, rest);
        return;
      }
      ghost var mid := trace;
      seqNo := seqNo + 1;
      closed := StoreAndYield(Done, "", Some(seqNo));
      assert trace == mid + rest;
      GrewFurther(before, mid, trace, first, rest, closed);
    }

    /** The terminal events of a stream whose finalization returned. */
    method ReportFinalization(recorded: bool) returns (closed: bool)
      requires Open()
      modifies this`seqNo, this`trace, this`outputs
      ensures Grew(old(trace), trace, Closing(frame, recorded, old(seqNo)), closed)
      ensures if closed then JustClosed() else Open()
    {
      if recorded {
        closed := ReportUsage();
      } else {
        closed := StoreAndYield(Failure, "quota_finalization_failed", Some(seqNo));
      }
    }

    /** Everything after the release flag was taken down. */
    method Account(env: Env) returns (closed: bool)
      requires Open()
      modifies this`seqNo, this`trace, this`outputs
      ensures Grew(old(trace), trace, Accounting(mode, frame, env, old(seqNo)), closed)
      ensures if closed then JustClosed() else Open()
    {
      if mode.Conv? && env.saving.OtherFault? {
        return false;
      }
      if mode.Conv? && env.saving.RuntimeFault? {
        closed := HandleRuntimeError(env, false, env.saving.cancelish);
        return;
      }
      ghost var before, id := trace, seqNo;
      Note(CallFinalization);
      ghost var mid := trace;
      closed := Finalize(env);
      GrewFurther(before, mid, trace, [CallFinalization], Called(mode, frame, env, id), closed);
    }

    /** The finalization call and what follows it. */
    method Finalize(env: Env) returns (closed: bool)
      requires Open()
      modifies this`seqNo, this`trace, this`outputs
      ensures Grew(old(trace), trace, Called(mode, frame, env, old(seqNo)), closed)
      ensures if closed then JustClosed() else Open()
    {
      if env.finalizing.OtherFault? {
        return false;
      }
      if env.finalizing.RuntimeFault? {
        closed := HandleRuntimeError(env, false, env.finalizing.cancelish);
        return;
      }
      ghost var before, id := trace, seqNo;
      Note(FinalizationReturned(env.recorded));
      ghost var mid := trace;
      closed := ReportFinalization(env.recorded);
      GrewFurther(before, mid, trace, [FinalizationReturned(env.recorded)], Closing(frame, env.recorded, id), closed);
    }

    /** From the end of the harness items to the last event. */
    method FinishStream(env: Env, productive: bool) returns (closed: bool)
      requires Open() && canRelease && LowerFlag !in trace
      modifies this`seqNo, this`trace, this`outputs, this`canRelease
      ensures Grew(old(trace), trace, AfterItems(mode, frame, env, old(seqNo), productive), closed)
      ensures if closed then JustClosed() else Open()
      ensures canRelease <==> LowerFlag !in trace
    {
      if !productive {
        FaultKeepsFlag(mode, frame, env, false, seqNo);
        closed := HandleRuntimeError(env, false, false);
        return;
      }
      canRelease := false;
      ghost var before, id := trace, seqNo;
      Note(LowerFlag);
      ghost var mid := trace;
      closed := Account(env);
      GrewFurther(before, mid, trace, [LowerFlag], Accounting(mode, frame, env, id), closed);
      assert trace[|before|] == mid[|before|] == LowerFlag;
    }

    /** The events of one tool call. */
    method StoreToolCall(call: ToolCall) returns (closed: bool)
      requires Open()
      modifies this`seqNo, this`trace, this`outputs
      ensures var id := old(seqNo);
              && Grew(old(trace), trace,
                      Emit(frame, ToolCallEvent, call.body, id) + Emit(frame, ToolResult, call.id, id + 1), closed)
              && (!closed ==> seqNo == id + 2)
      ensures if closed then JustClosed() else Open()
    {
      ghost var before, id := trace, seqNo;
      closed := StoreAndYield(ToolCallEvent, call.body, None);
      GrewAndClosed(before, trace, Emit(frame, ToolCallEvent, call.body, id), Emit(frame, ToolResult, call.id, id + 1));
      if closed {
        return;
      }
      ghost var mid := trace;
      closed := StoreAndYield(ToolResult, call.id, None);
      GrewFurther(before, mid, trace, Emit(frame, ToolCallEvent, call.body, id),
                  Emit(frame, ToolResult, call.id, id + 1), closed);
    }

    /** One turn of the item loop: what it emits, and whether the loop is left. */
    method HandleItem(x: StreamItem) returns (closed: bool, ended: bool, text: bool, tool: bool)
      requires Open()
      modifies this`seqNo, this`trace, this`outputs
      ensures Grew(old(trace), trace, ItemEffects(mode, frame, x, old(seqNo)), closed)
      ensures if closed then JustClosed() else Open()
      ensures !closed ==> ended == EndsStream(mode, x) && text == IsText(mode, x) && tool == IsTool(mode, x)
      ensures !closed && !ended ==> seqNo == NextId(mode, x, old(seqNo))
    {
      closed, ended, text, tool := false, false, false, false;
      match x {
        case Keepalive =>
          closed := YieldKeepalive();
        case Cancelled =>
          closed := StoreAndYield(Cancel, "cancelled by client", None);
          ended := true;
        case Passed(item) =>
          if mode.OpenAi? && item.tool.Some? {
            tool := true;
            if !item.tool.value.wellFormed {
              return false, true, false, true;
            }
            closed := StoreToolCall(item.tool.value);
          } else if item.text != "" {
            text := true;
            closed := StoreAndYield(Token, item.text, None);
          }
      }
    }

    /** After the last harness item. */
    method EndOfItems(env: Env, productive: bool) returns (closed: bool)
      requires Open() && canRelease && LowerFlag !in trace
      modifies this`seqNo, this`trace, this`outputs, this`canRelease
      ensures Grew(old(trace), trace, Course(mode, frame, env, [], old(seqNo), productive), closed)
      ensures if closed then JustClosed() else Open()
      ensures canRelease <==> LowerFlag !in trace
    {
      match env.harness
      case Fine =>
        closed := FinishStream(env, productive);
      case RuntimeFault(cancelish) =>
        FaultKeepsFlag(mode, frame, env, cancelish, seqNo);
        closed := HandleRuntimeError(env, false, cancelish);
      case OtherFault =>
        return false;
    }

    /** Items one after the other; `ended` when one of them ends the stream. */
    method ItemLoop(items: seq<StreamItem>, env: Env) returns (closed: bool, ended: bool, productive: bool)
      requires Open() && canRelease && LowerFlag !in trace
      modifies this`seqNo, this`trace, this`outputs
      ensures if closed then JustClosed() else Open()
      ensures LowerFlag !in trace
      ensures var full := old(trace) + Course(mode, frame, env, items, old(seqNo), false);
              && trace <= full
              && (!closed && ended ==> trace == full)
              && (!closed && !ended ==> full == trace + Course(mode, frame, env, [], seqNo, productive))
    {
      ghost var full := trace + Course(mode, frame, env, items, seqNo, false);
      closed, ended := false, false;
      var collected: seq<string> := [];
      var hadToolCall := false;
      var i: nat := 0;
      assert items[0..] == items;
      while i < |items|
        invariant 0 <= i <= |items|
        invariant !closed && !ended && Open() && LowerFlag !in trace
        invariant full == trace + Course(mode, frame, env, items[i..], seqNo, collected != [] || hadToolCall)
      {
        ghost var before, id := trace, seqNo;
        var text, tool: bool;
        closed, ended, text, tool := HandleItem(items[i]);
        TurnOn(mode, frame, env, items, i, id, collected != [] || hadToolCall, before, trace, full, closed);
        ItemKeepsFlag(mode, frame, items[i], id);
        FlagStillUp(before, trace, ItemEffects(mode, frame, items[i], id), closed);
        if closed || ended {
          return closed, ended, false;
        }
        if text {
          collected := collected + [items[i].item.text];
        }
        hadToolCall := hadToolCall || tool;
        i := i + 1;
      }
      assert items[i..] == [];
      productive := collected != [] || hadToolCall;
    }

    /** The event generator: start, one event or two per harness item, and the end. */
    method EventStream(items: seq<StreamItem>, env: Env) returns (closed: bool)
      requires Open() && trace == [] && seqNo == 1 && canRelease
      modifies this`seqNo, this`trace, this`outputs, this`canRelease
      ensures Grew([], trace, FullCourse(mode, frame, env, items), closed)
      ensures if closed then JustClosed() else Open()
      ensures canRelease <==> LowerFlag !in trace
    {
      closed := StoreAndYield(Start, "", None);
      assert trace == Emit(frame, Start, "", 1);
      if closed {
        return;
      }
      var ended, productive;
      closed, ended, productive := ItemLoop(items, env);
      if closed || ended {
        return;
      }
      ghost var mid := trace;
      closed := EndOfItems(env, productive);
      assert [] <= trace;
    }

    /** The whole response: the generator, and the clean-up that runs however it ends. */
    method Respond(items: seq<StreamItem>, env: Env) returns (closed: bool, ghost done: seq<Effect>)
      requires Open() && trace == [] && seqNo == 1 && canRelease
      modifies this`seqNo, this`trace, this`outputs, this`canRelease
      ensures done <= FullCourse(mode, frame, env, items)
      ensures if closed then Outputs(done) == closeAt && IsOutput(done[|done| - 1])
              else done == FullCourse(mode, frame, env, items) && Outputs(done) < closeAt
      ensures trace == done + if hasToken && LowerFlag !in done && !(mode.Conv? && closed && closeAt == 1)
                              then [Release] else []
      ensures Release in trace <==>
                && hasToken && CallFinalization !in trace
                && !(SavingFails(mode, env) && LowerFlag in trace)
                && !(mode.Conv? && closed && closeAt == 1)
      ensures !closed ==> (LowerFlag in trace <==> Reaches(mode, env, items))
    {
      closed := EventStream(items, env);
      done := trace;
      StreamCalls(mode, frame, env, items, done);
      NeverReleases(mode, frame, env, items, done);
      // the conversation endpoint enters its guarded block only after the first event was taken
      if mode.Conv? && closed && outputs == 1 {
        return;
      }
      if hasToken && canRelease {
        trace := trace + [Release];
      }
    }
  }
}
