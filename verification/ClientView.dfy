/** What a streaming client reads, told from the harness items and from what else happens, and from nothing else. */
module ClientView {
  import opened Rows
  import opened Pump
  import opened StreamCourse
  import opened StreamLaws
  import Reconnect
  import History
  import Text
  import Sse

  /** One message: its name on the wire, and what its data is about. */
  datatype Line = Line(name: string, kind: Kind, about: string)

  /** What one item makes a client read. */
  function ItemLines(mode: Mode, x: StreamItem): seq<Line> {
    match x
    case Keepalive => []
    case Cancelled => [Line("cancel", Cancel, "cancelled by client")]
    case Passed(Item(text, tool)) =>
      if mode.OpenAi? && tool.Some? then
        var call := tool.value;
        if call.wellFormed
        then [Line("tool_call", ToolCallEvent, call.body), Line("tool_result", ToolResult, call.id)]
        else []
      else if text != "" then [Line("token", Token, text)]
      else []
  }

  /** The first thing that goes wrong after the last item, in the order in which things are done. An answer without any
      text or tool call is a runtime error like one of the harness. */
  function FirstFault(mode: Mode, env: Env, productive: bool): Outcome {
    if !env.harness.Fine? then env.harness
    else if !productive then RuntimeFault(false)
    else if mode.Conv? && !env.saving.Fine? then env.saving
    else env.finalizing
  }

  /** How the stream ends: with usage and done if all went well and finalization returned a record. */
  function EndLines(mode: Mode, env: Env, productive: bool): seq<Line> {
    match FirstFault(mode, env, productive)
    case OtherFault => []
    case RuntimeFault(cancelish) =>
      if cancelish then [Line("cancel", Cancel, "cancelled")]
      else if mode.Conv? && !env.errorSaving then []
      else [Line("error", Failure, "harness_error")]
    case Fine =>
      if env.recorded then [Line("usage", Usage, ""), Line("done", Done, "")]
      else [Line("error", Failure, "quota_finalization_failed")]
  }

  function RestLines(mode: Mode, env: Env, items: seq<StreamItem>, productive: bool): seq<Line> {
    if items == [] then EndLines(mode, env, productive)
    else if !Undisturbed(mode, [items[0]]) then ItemLines(mode, items[0])
    else ItemLines(mode, items[0]) + RestLines(mode, env, items[1..], productive || Productive(mode, [items[0]]))
  }

  /** Everything a client reads that does not leave. */
  function Script(mode: Mode, env: Env, items: seq<StreamItem>): seq<Line> {
    [Line("start", Start, "")] + RestLines(mode, env, items, false)
  }

  /** A log stores these lines. */
  predicate Tells(l: seq<Effect>, lines: seq<Line>) {
    |l| == |lines|
    && forall i :: 0 <= i < |l| ==>
         l[i].Append? && l[i].kind == lines[i].kind && l[i].about == lines[i].about
         && EventName(l[i].kind) == lines[i].name
  }

  lemma TellsMore(a: seq<Effect>, b: seq<Effect>, p: seq<Line>, q: seq<Line>)
    requires Tells(a, p) && Tells(b, q)
    ensures Tells(a + b, p + q)
  {
  }

  lemma FaultTells(mode: Mode, frame: Framer, env: Env, cancelish: bool, next: int)
    ensures Tells(Log(AfterFault(mode, frame, env, cancelish, next)),
                  if cancelish then [Line("cancel", Cancel, "cancelled")]
                  else if mode.Conv? && !env.errorSaving then []
                  else [Line("error", Failure, "harness_error")])
  {
    LogEmit(frame, Cancel, "cancelled", next);
    LogEmit(frame, Failure, "harness_error", next);
  }

  lemma ClosingTells(frame: Framer, recorded: bool, next: int)
    ensures Tells(Log(Closing(frame, recorded, next)),
                  if recorded then [Line("usage", Usage, ""), Line("done", Done, "")]
                  else [Line("error", Failure, "quota_finalization_failed")])
  {
    LogEmit(frame, Usage, "", next);
    LogEmit(frame, Done, "", next + 2);
    LogEmit(frame, Failure, "quota_finalization_failed", next);
    LogsAppend(Emit(frame, Usage, "", next), Emit(frame, Done, "", next + 2));
  }

  /** Markers do not show in the log. */
  lemma MarkerIsSilent(e: Effect, t: seq<Effect>)
    requires !e.Append?
    ensures Log([e] + t) == Log(t)
  {
    LogsAppend([e], t);
    LogOne(e);
    assert [] + Log(t) == Log(t);
  }

  lemma CalledTells(mode: Mode, frame: Framer, env: Env, next: int)
    requires env.harness.Fine? && (mode.Conv? ==> env.saving.Fine?)
    ensures Tells(Log([LowerFlag] + Accounting(mode, frame, env, next)), EndLines(mode, env, true))
  {
    MarkerIsSilent(LowerFlag, Accounting(mode, frame, env, next));
    MarkerIsSilent(CallFinalization, Called(mode, frame, env, next));
    match env.finalizing
    case OtherFault =>
    case RuntimeFault(cancelish) => FaultTells(mode, frame, env, cancelish, next);
    case Fine =>
      MarkerIsSilent(FinalizationReturned(env.recorded), Closing(frame, env.recorded, next));
      ClosingTells(frame, env.recorded, next);
  }

  lemma EndTells(mode: Mode, frame: Framer, env: Env, next: int, productive: bool)
    ensures Tells(Log(Course(mode, frame, env, [], next, productive)), EndLines(mode, env, productive))
  {
    if env.harness.RuntimeFault? {
      FaultTells(mode, frame, env, env.harness.cancelish, next);
    } else if env.harness.Fine? && !productive {
      FaultTells(mode, frame, env, false, next);
    } else if env.harness.Fine? && mode.Conv? && !env.saving.Fine? {
      MarkerIsSilent(LowerFlag, Accounting(mode, frame, env, next));
      FaultTells(mode, frame, env, env.saving.RuntimeFault? && env.saving.cancelish, next);
    } else if env.harness.Fine? {
      CalledTells(mode, frame, env, next);
    }
  }

  lemma ToolTells(frame: Framer, call: ToolCall, next: int)
    ensures Tells(Log(Emit(frame, ToolCallEvent, call.body, next) + Emit(frame, ToolResult, call.id, next + 1)),
                  [Line("tool_call", ToolCallEvent, call.body), Line("tool_result", ToolResult, call.id)])
  {
    var first, second := Emit(frame, ToolCallEvent, call.body, next), Emit(frame, ToolResult, call.id, next + 1);
    LogEmit(frame, ToolCallEvent, call.body, next);
    LogEmit(frame, ToolResult, call.id, next + 1);
    LogsAppend(first, second);
  }

  lemma ItemTells(mode: Mode, frame: Framer, x: StreamItem, next: int)
    ensures Tells(Log(ItemEffects(mode, frame, x, next)), ItemLines(mode, x))
  {
    match x
    case Keepalive => LogOne(Heartbeat);
    case Cancelled => LogEmit(frame, Cancel, "cancelled by client", next);
    case Passed(item) =>
      if mode.OpenAi? && item.tool.Some? {
        ToolTells(frame, item.tool.value, next);
      } else if item.text != "" {
        LogEmit(frame, Token, item.text, next);
      }
  }

  lemma {:induction false} CourseTells(mode: Mode, frame: Framer, env: Env, items: seq<StreamItem>, next: int,
                                       productive: bool)
    ensures Tells(Log(Course(mode, frame, env, items, next, productive)), RestLines(mode, env, items, productive))
    decreases |items|
  {
    if items == [] {
      EndTells(mode, frame, env, next, productive);
    } else {
      var x := items[0];
      ItemTells(mode, frame, x, next);
      CourseStep(mode, frame, env, items, next, productive);
      OneItem(mode, x);
      if !EndsStream(mode, x) {
        var id, more := NextId(mode, x, next), productive || IsTool(mode, x) || IsText(mode, x);
        var rest := Course(mode, frame, env, items[1..], id, more);
        CourseTells(mode, frame, env, items[1..], id, more);
        LogsAppend(ItemEffects(mode, frame, x, next), rest);
        TellsMore(Log(ItemEffects(mode, frame, x, next)), Log(rest), ItemLines(mode, x),
                  RestLines(mode, env, items[1..], more));
      }
    }
  }

  /** The log of a stream that nobody closes is its script; of one that is cut, a beginning of it. */
  lemma LogIsScript(mode: Mode, frame: Framer, env: Env, items: seq<StreamItem>, done: seq<Effect>)
    requires done <= FullCourse(mode, frame, env, items)
    ensures |Log(done)| <= |Script(mode, env, items)|
    ensures Tells(Log(done), Script(mode, env, items)[..|Log(done)|])
    ensures done == FullCourse(mode, frame, env, items) ==> |Log(done)| == |Script(mode, env, items)|
  {
    var start, course := Emit(frame, Start, "", 1), Course(mode, frame, env, items, 2, false);
    LogEmit(frame, Start, "", 1);
    CourseTells(mode, frame, env, items, 2, false);
    LogsAppend(start, course);
    TellsMore(Log(start), Log(course), [Line("start", Start, "")], RestLines(mode, env, items, false));
    LogPrefix(done, FullCourse(mode, frame, env, items));
  }

  // ----- as messages

  /** The message that line number `i` becomes. */
  function MessageOf(line: Line, i: nat, data: (Kind, string) -> string): Sse.Message {
    var id := i + 1 + if line.name == "done" then 1 else 0;
    var text := if line.name == "done" then "[DONE]" else data(line.kind, line.about);
    Sse.Message(Text.Dec(id), line.name, Sse.Join(Sse.Pieces(text)), Some(3000))
  }

  function MessagesOf(lines: seq<Line>, data: (Kind, string) -> string): seq<Sse.Message> {
    seq(|lines|, i requires 0 <= i < |lines| => MessageOf(lines[i], i, data))
  }

  lemma SameMessage(e: Effect, line: Line, i: nat, data: (Kind, string) -> string)
    requires e.Append? && e.kind == line.kind && e.about == line.about && EventName(e.kind) == line.name
    requires e.id == i + 1 + if e.kind == Done then 1 else 0
    ensures Sse.Delivered(Reconnect.EventOf(e, data), "", None) == MessageOf(line, i, data)
  {
    assert e.kind.Done? <==> line.name == "done";
  }

  lemma SameMessages(l: seq<Effect>, lines: seq<Line>, events: seq<Sse.Event>, data: (Kind, string) -> string)
    requires |l| <= |lines| && Tells(l, lines[..|l|]) && |events| == |l|
    requires forall i :: 0 <= i < |l| ==> l[i].id == i + 1 + (if l[i].kind == Done then 1 else 0)
    requires forall i :: 0 <= i < |l| ==> l[i].Append? && events[i] == Reconnect.EventOf(l[i], data)
    ensures Reconnect.Messages(events) == MessagesOf(lines, data)[..|l|]
  {
    forall i | 0 <= i < |l| ensures Reconnect.Messages(events)[i] == MessagesOf(lines, data)[i] {
      assert lines[..|l|][i] == lines[i];
      SameMessage(l[i], lines[i], i, data);
    }
  }

  /** A client that reads what a stream has stored reads the first messages of the script, and all of them if the stream
      ran to its end: names, data, ids and retry time. */
  lemma ClientReadsScript(mode: Mode, data: (Kind, string) -> string, env: Env, items: seq<StreamItem>,
                          done: seq<Effect>)
    requires done <= FullCourse(mode, SseFramer(data), env, items)
    ensures var n := |Log(done)|;
            var read := Sse.Read(Reconnect.Flatten(History.Payloads(Entries(done))));
            && n <= |Script(mode, env, items)|
            && read == MessagesOf(Script(mode, env, items), data)[..n]
            && (done == FullCourse(mode, SseFramer(data), env, items) ==>
                  read == MessagesOf(Script(mode, env, items), data))
  {
    LogIsScript(mode, SseFramer(data), env, items, done);
    IdsIncrease(mode, SseFramer(data), env, items, done);
    Reconnect.StreamStands(mode, data, env, items, done);
    Reconnect.ReadEntries(Reconnect.EventsOf(done, data), Entries(done));
    SameMessages(Log(done), Script(mode, env, items), Reconnect.EventsOf(done, data), data);
  }
}
