/** The course of one streaming response: event ids, terminal events, and when finalization is called. */
module StreamCourse {
  import opened Rows
  import opened Pump
  import Sse

  /** `OpenAi` is the completions endpoint, `Conv` the conversation endpoint. */
  datatype Mode = OpenAi | Conv

  datatype Kind = Start | Token | ToolCallEvent | ToolResult | Cancel | Failure | Usage | Done

  /** A runtime error whose text speaks of a cancellation or a kill is reported as a cancellation. */
  datatype Outcome = Fine | RuntimeFault(cancelish: bool) | OtherFault

  /** How everything outside the handler behaves during one stream. */
  datatype Env = Env(
    harness: Outcome,          // how the harness ends after its last item
    saving: Outcome,           // storing the assistant message (conversation endpoint)
    finalizing: Outcome,       // the finalization call itself
    recorded: bool,            // whether finalization returned a record
    errorSaving: bool)         // whether storing an error message gets through (conversation endpoint)

  datatype Effect =
    | Append(kind: Kind, id: int, about: string, frame: string)
    | Yield(frame: string)
    | Heartbeat
    | LowerFlag              // the release flag is taken down
    | CallFinalization       // the ledger is asked to finalize
    | FinalizationReturned(recorded: bool)
    | Release

  function EventName(k: Kind): string {
    match k
    case Start => "start"
    case Token => "token"
    case ToolCallEvent => "tool_call"
    case ToolResult => "tool_result"
    case Cancel => "cancel"
    case Failure => "error"
    case Usage => "usage"
    case Done => "done"
  }

  const RETRY_MS: int := 3000

  /** The frame of an event: its kind, its id, and the item text it is about. */
  type Framer = (Kind, int, string) -> string

  /** The data of an event: fixed for the last one, built outside this model for the others. */
  function DataOf(data: (Kind, string) -> string, k: Kind, about: string): string {
    if k.Done? then "[DONE]" else data(k, about)
  }

  /** Frames as they go over the wire. */
  function SseFramer(data: (Kind, string) -> string): Framer {
    (k: Kind, id: int, about: string) =>
      Sse.Frame(Sse.Event(EventName(k), DataOf(data, k, about), Some(id), Some(RETRY_MS)))
  }

  // ----- the complete course of a stream that nobody closes

  function Emit(frame: Framer, k: Kind, about: string, id: int): seq<Effect> {
    [Append(k, id, about, frame(k, id, about)), Yield(frame(k, id, about))]
  }

  function AfterFault(mode: Mode, frame: Framer, env: Env, cancelish: bool, next: int): seq<Effect> {
    if cancelish then Emit(frame, Cancel, "cancelled", next)
    else if mode.Conv? && !env.errorSaving then []
    else Emit(frame, Failure, "harness_error", next)
  }

  function AfterItems(mode: Mode, frame: Framer, env: Env, next: int, productive: bool): seq<Effect> {
    if !productive then AfterFault(mode, frame, env, false, next)
    else [LowerFlag] + Accounting(mode, frame, env, next)
  }

  /** With the flag down: the conversation endpoint stores its message, then finalization is called. */
  function Accounting(mode: Mode, frame: Framer, env: Env, next: int): seq<Effect> {
    if mode.Conv? && env.saving.OtherFault? then []
    else if mode.Conv? && env.saving.RuntimeFault? then AfterFault(mode, frame, env, env.saving.cancelish, next)
    else [CallFinalization] + Called(mode, frame, env, next)
  }

  function Called(mode: Mode, frame: Framer, env: Env, next: int): seq<Effect> {
    if env.finalizing.OtherFault? then []
    else if env.finalizing.RuntimeFault? then AfterFault(mode, frame, env, env.finalizing.cancelish, next)
    else [FinalizationReturned(env.recorded)] + Closing(frame, env.recorded, next)
  }

  /** The terminal events; the counter is advanced once more between usage and done. */
  function Closing(frame: Framer, recorded: bool, next: int): seq<Effect> {
    if recorded then Emit(frame, Usage, "", next) + Emit(frame, Done, "", next + 2)
    else Emit(frame, Failure, "quota_finalization_failed", next)
  }

  /** A tool call is looked at only by the completions endpoint. */
  predicate IsTool(mode: Mode, x: StreamItem) {
    mode.OpenAi? && x.Passed? && x.item.tool.Some?
  }

  predicate IsText(mode: Mode, x: StreamItem) {
    x.Passed? && !IsTool(mode, x) && x.item.text != ""
  }

  function ItemEffects(mode: Mode, frame: Framer, x: StreamItem, next: int): seq<Effect> {
    if x.Keepalive? then [Heartbeat]
    else if x.Cancelled? then Emit(frame, Cancel, "cancelled by client", next)
    else if IsTool(mode, x) then
      var call := x.item.tool.value;
      if !call.wellFormed then []
      else Emit(frame, ToolCallEvent, call.body, next) + Emit(frame, ToolResult, call.id, next + 1)
    else if IsText(mode, x) then Emit(frame, Token, x.item.text, next)
    else []
  }

  /** A cancellation ends the stream; so does a malformed tool call, by an error nobody handles. */
  predicate EndsStream(mode: Mode, x: StreamItem) {
    x.Cancelled? || (IsTool(mode, x) && !x.item.tool.value.wellFormed)
  }

  function NextId(mode: Mode, x: StreamItem, next: int): int {
    if IsTool(mode, x) then next + 2 else if IsText(mode, x) then next + 1 else next
  }

  function Course(mode: Mode, frame: Framer, env: Env, items: seq<StreamItem>, next: int, productive: bool): seq<Effect>
    decreases |items|
  {
    if items == [] then
      match env.harness
      case Fine => AfterItems(mode, frame, env, next, productive)
      case RuntimeFault(cancelish) => AfterFault(mode, frame, env, cancelish, next)
      case OtherFault => []
    else
      var x := items[0];
      ItemEffects(mode, frame, x, next)
      + if EndsStream(mode, x) then []
        else Course(mode, frame, env, items[1..], NextId(mode, x, next),
                    productive || IsTool(mode, x) || IsText(mode, x))
  }

  lemma CourseStep(mode: Mode, frame: Framer, env: Env, items: seq<StreamItem>, next: int, productive: bool)
    requires items != []
    ensures Course(mode, frame, env, items, next, productive) ==
              if EndsStream(mode, items[0]) then ItemEffects(mode, frame, items[0], next)
              else ItemEffects(mode, frame, items[0], next)
                   + Course(mode, frame, env, items[1..], NextId(mode, items[0], next),
                            productive || IsTool(mode, items[0]) || IsText(mode, items[0]))
  {
    var effects := ItemEffects(mode, frame, items[0], next);
    assert effects + [] == effects;
  }

  function FullCourse(mode: Mode, frame: Framer, env: Env, items: seq<StreamItem>): seq<Effect> {
    Emit(frame, Start, "", 1) + Course(mode, frame, env, items, 2, false)
  }

  // ----- closing

  predicate IsOutput(e: Effect) {
    e.Yield? || e.Heartbeat?
  }

  function OutputClass(): Effect -> bool {
    (e: Effect) => IsOutput(e)
  }

  function Outputs(t: seq<Effect>): nat {
    Count(t, OutputClass())
  }

  lemma OutputsPush(t: seq<Effect>, e: Effect)
    ensures Outputs(t + [e]) == Outputs(t) + if IsOutput(e) then 1 else 0
  {
    CountPush(t, e, OutputClass());
  }

  /** The trace grew by `tail`, or by a beginning of it if the consumer closed meanwhile. */
  predicate Grew(before: seq<Effect>, trace: seq<Effect>, tail: seq<Effect>, closed: bool) {
    && before <= trace <= before + tail
    && (!closed ==> trace == before + tail)
  }

  lemma GrewFurther(before: seq<Effect>, mid: seq<Effect>, trace: seq<Effect>, first: seq<Effect>, rest: seq<Effect>,
                    closed: bool)
    requires mid == before + first && Grew(mid, trace, rest, closed)
    ensures Grew(before, trace, first + rest, closed)
  {
    assert before + first + rest == before + (first + rest);
  }

  lemma GrewAndClosed(before: seq<Effect>, trace: seq<Effect>, first: seq<Effect>, rest: seq<Effect>)
    requires trace == before + first
    ensures Grew(before, trace, first + rest, true)
  {
    assert before + first + rest == before + (first + rest);
  }

  lemma FaultKeepsFlag(mode: Mode, frame: Framer, env: Env, cancelish: bool, next: int)
    ensures LowerFlag !in AfterFault(mode, frame, env, cancelish, next)
  {
  }

  lemma ItemKeepsFlag(mode: Mode, frame: Framer, x: StreamItem, next: int)
    ensures LowerFlag !in ItemEffects(mode, frame, x, next)
  {
  }

  lemma GrewWithin(before: seq<Effect>, trace: seq<Effect>, first: seq<Effect>, rest: seq<Effect>, closed: bool)
    requires Grew(before, trace, first, closed)
    ensures trace <= before + (first + rest)
    ensures !closed ==> before + (first + rest) == trace + rest
  {
    assert before + (first + rest) == before + first + rest;
  }

  lemma FlagStillUp(before: seq<Effect>, trace: seq<Effect>, tail: seq<Effect>, closed: bool)
    requires Grew(before, trace, tail, closed) && LowerFlag !in before && LowerFlag !in tail
    ensures LowerFlag !in trace
  {
    assert forall e :: e in before + tail ==> e in before || e in tail;
  }

  /** One turn of the item loop, seen against the whole course. */
  lemma TurnOn(mode: Mode, frame: Framer, env: Env, items: seq<StreamItem>, i: nat, next: int, productive: bool,
               before: seq<Effect>, trace: seq<Effect>, full: seq<Effect>, closed: bool)
    requires i < |items| && full == before + Course(mode, frame, env, items[i..], next, productive)
    requires Grew(before, trace, ItemEffects(mode, frame, items[i], next), closed)
    ensures trace <= full
    ensures !closed && EndsStream(mode, items[i]) ==> trace == full
    ensures !closed && !EndsStream(mode, items[i]) ==>
              full == trace + Course(mode, frame, env, items[i + 1..], NextId(mode, items[i], next),
                                     productive || IsTool(mode, items[i]) || IsText(mode, items[i]))
  {
    var x := items[i];
    assert items[i..][1..] == items[i + 1..];
    CourseStep(mode, frame, env, items[i..], next, productive);
    if !EndsStream(mode, x) {
      var rest := Course(mode, frame, env, items[i + 1..], NextId(mode, x, next),
                         productive || IsTool(mode, x) || IsText(mode, x));
      GrewWithin(before, trace, ItemEffects(mode, frame, x, next), rest, closed);
    }
  }

  // ----- when finalization is called

  /** Some item carries text, or a tool call that the endpoint looks at. */
  predicate Productive(mode: Mode, items: seq<StreamItem>) {
    exists x :: x in items && x.Passed? && (x.item.text != "" || (mode.OpenAi? && x.item.tool.Some?))
  }

  /** The client was not found gone, and no tool call that the endpoint looks at was malformed. */
  predicate Undisturbed(mode: Mode, items: seq<StreamItem>) {
    forall x :: x in items ==>
      !x.Cancelled? && (mode.OpenAi? && x.Passed? && x.item.tool.Some? ==> x.item.tool.value.wellFormed)
  }

  /** The harness ended well, with something to answer, and nothing ended the stream before. */
  predicate Reaches(mode: Mode, env: Env, items: seq<StreamItem>) {
    env.harness.Fine? && Productive(mode, items) && Undisturbed(mode, items)
  }

  lemma OneItem(mode: Mode, x: StreamItem)
    ensures EndsStream(mode, x) <==> !Undisturbed(mode, [x])
    ensures IsTool(mode, x) || IsText(mode, x) <==> Productive(mode, [x])
  {
    assert [x][0] == x;
    assert x in [x];
  }

  predicate Finishes(mode: Mode, env: Env, items: seq<StreamItem>, productive: bool) {
    Reaches(mode, env, items)
    || (env.harness.Fine? && productive && Undisturbed(mode, items))
  }

  lemma FinishesStep(mode: Mode, env: Env, items: seq<StreamItem>, productive: bool)
    requires items != []
    ensures var x := items[0];
            Finishes(mode, env, items, productive)
            <==> !EndsStream(mode, x)
                 && Finishes(mode, env, items[1..], productive || IsTool(mode, x) || IsText(mode, x))
  {
    assert forall x :: x in items <==> x == items[0] || x in items[1..];
  }

  /** The conversation endpoint cannot store the assistant message. */
  predicate SavingFails(mode: Mode, env: Env) {
    mode.Conv? && !env.saving.Fine?
  }

  /** A course that ran to its end, or was closed right after an output. */
  predicate Cut(t: seq<Effect>, full: seq<Effect>) {
    t <= full && (t == full || (t != [] && IsOutput(t[|t| - 1])))
  }

  /** In a beginning of a course the call is made exactly if the flag is down and the message was stored. */
  predicate CallsRightly(mode: Mode, env: Env, t: seq<Effect>) {
    CallFinalization in t <==> LowerFlag in t && !SavingFails(mode, env)
  }

  lemma FaultHasNoCall(mode: Mode, frame: Framer, env: Env, cancelish: bool, next: int)
    ensures CallFinalization !in AfterFault(mode, frame, env, cancelish, next)
  {
  }

  lemma CutPastFlag(mode: Mode, frame: Framer, env: Env, next: int, t: seq<Effect>)
    requires Cut(t, [LowerFlag] + Accounting(mode, frame, env, next))
    ensures CallsRightly(mode, env, t)
  {
    var rest := Accounting(mode, frame, env, next);
    var full := [LowerFlag] + rest;
    assert t != [] ==> t[0] == LowerFlag;
    if SavingFails(mode, env) {
      FaultHasNoCall(mode, frame, env, env.saving.RuntimeFault? && env.saving.cancelish, next);
      assert forall e :: e in t ==> e in full;
    } else {
      assert full[1] == CallFinalization;
      assert |t| > 1 ==> t[1] == CallFinalization;
    }
  }

  lemma EndCalls(mode: Mode, frame: Framer, env: Env, next: int, productive: bool, t: seq<Effect>)
    requires Cut(t, Course(mode, frame, env, [], next, productive))
    ensures CallsRightly(mode, env, t)
    ensures t == Course(mode, frame, env, [], next, productive) ==>
              (LowerFlag in t <==> env.harness.Fine? && productive)
  {
    var full := Course(mode, frame, env, [], next, productive);
    if env.harness.Fine? && productive {
      CutPastFlag(mode, frame, env, next, t);
    } else {
      var cancelish := env.harness.RuntimeFault? && env.harness.cancelish;
      FaultHasNoCall(mode, frame, env, cancelish, next);
      FaultKeepsFlag(mode, frame, env, cancelish, next);
      assert forall e :: e in t ==> e in full;
    }
  }

  lemma ItemHasNoCall(mode: Mode, frame: Framer, x: StreamItem, next: int)
    ensures CallFinalization !in ItemEffects(mode, frame, x, next)
  {
  }

  lemma CutAfter(head: seq<Effect>, rest: seq<Effect>, t: seq<Effect>)
    requires Cut(t, head + rest)
    ensures |t| < |head| ==> t == head[..|t|]
    ensures |t| >= |head| ==> t == head + t[|head|..] && (t == head || Cut(t[|head|..], rest))
    ensures t == head + rest ==> t[|head|..] == rest
  {
    if |t| > |head| {
      assert t[|head|..] <= rest;
      assert t[|head|..][|t| - |head| - 1] == t[|t| - 1];
    }
  }

  lemma {:induction false} CourseCalls(mode: Mode, frame: Framer, env: Env, items: seq<StreamItem>, next: int,
                                       productive: bool, t: seq<Effect>)
    requires Cut(t, Course(mode, frame, env, items, next, productive))
    ensures CallsRightly(mode, env, t)
    ensures t == Course(mode, frame, env, items, next, productive) ==>
              (LowerFlag in t <==> Finishes(mode, env, items, productive))
    decreases |items|
  {
    if items == [] {
      EndCalls(mode, frame, env, next, productive, t);
    } else {
      var x := items[0];
      var head := ItemEffects(mode, frame, x, next);
      ItemHasNoCall(mode, frame, x, next);
      ItemKeepsFlag(mode, frame, x, next);
      CourseStep(mode, frame, env, items, next, productive);
      FinishesStep(mode, env, items, productive);
      if EndsStream(mode, x) {
        assert forall e :: e in t ==> e in head;
      } else {
        var id, more := NextId(mode, x, next), productive || IsTool(mode, x) || IsText(mode, x);
        var rest := Course(mode, frame, env, items[1..], id, more);
        CutAfter(head, rest, t);
        if |t| >= |head| && Cut(t[|head|..], rest) {
          CourseCalls(mode, frame, env, items[1..], id, more, t[|head|..]);
        }
      }
    }
  }

  /** When the finalization call is made: exactly if the flag is down and, in a conversation, the message was stored;
      and in a stream nobody closes the flag goes down exactly if the harness ended well with something to answer. */
  lemma StreamCalls(mode: Mode, frame: Framer, env: Env, items: seq<StreamItem>, done: seq<Effect>)
    requires Cut(done, FullCourse(mode, frame, env, items))
    ensures CallsRightly(mode, env, done)
    ensures done == FullCourse(mode, frame, env, items) ==> (LowerFlag in done <==> Reaches(mode, env, items))
  {
    var start, rest := Emit(frame, Start, "", 1), Course(mode, frame, env, items, 2, false);
    CutAfter(start, rest, done);
    if |done| >= |start| && Cut(done[|start|..], rest) {
      CourseCalls(mode, frame, env, items, 2, false, done[|start|..]);
    }
  }

  lemma {:induction false} CourseNeverReleases(mode: Mode, frame: Framer, env: Env, items: seq<StreamItem>, next: int,
                                               productive: bool)
    ensures Release !in Course(mode, frame, env, items, next, productive)
    decreases |items|
  {
    if items == [] {
      assert Release !in Called(mode, frame, env, next);
      assert Release !in AfterItems(mode, frame, env, next, productive);
    } else {
      var x := items[0];
      CourseStep(mode, frame, env, items, next, productive);
      CourseNeverReleases(mode, frame, env, items[1..], NextId(mode, x, next),
                          productive || IsTool(mode, x) || IsText(mode, x));
    }
  }

  /** The generator itself releases nothing. */
  lemma NeverReleases(mode: Mode, frame: Framer, env: Env, items: seq<StreamItem>, done: seq<Effect>)
    requires done <= FullCourse(mode, frame, env, items)
    ensures Release !in done
  {
    CourseNeverReleases(mode, frame, env, items, 2, false);
    assert forall e :: e in done ==> e in FullCourse(mode, frame, env, items);
  }

  /** A conversation whose message cannot be stored: finalization is not called and nothing is released either. */
  lemma FailedSaveStrandsToken(frame: Framer) returns (env: Env, items: seq<StreamItem>)
    ensures env.harness.Fine? && env.saving.OtherFault? && items == [Passed(Item("hi", None))]
    ensures var done := FullCourse(Conv, frame, env, items);
            LowerFlag in done && CallFinalization !in done && Release !in done
  {
    env := Env(Fine, OtherFault, Fine, true, true);
    items := [Passed(Item("hi", None))];
    assert IsText(Conv, items[0]);
    StreamCalls(Conv, frame, env, items, FullCourse(Conv, frame, env, items));
    NeverReleases(Conv, frame, env, items, FullCourse(Conv, frame, env, items));
  }
}
