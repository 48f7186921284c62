/** What goes out to a connected client, heartbeats included. */
module LiveView {
  import opened Rows
  import opened Pump
  import opened StreamCourse
  import opened StreamLaws
  import opened ClientView
  import Reconnect
  import History
  import Sse

  /** What goes out to a connected client. */
  function Wire(t: seq<Effect>): string {
    if t == [] then ""
    else (match t[0] case Yield(frame) => frame case Heartbeat => ": keepalive\n\n" case _ => "") + Wire(t[1..])
  }

  /** Every stored event goes out right after it is stored, and nothing else does. */
  predicate Paired(t: seq<Effect>) {
    t != [] ==>
      !t[0].Yield?
      && if t[0].Append? then |t| >= 2 && t[1] == Yield(t[0].frame) && Paired(t[2..]) else Paired(t[1..])
  }

  function Chunks(t: seq<Effect>, data: (Kind, string) -> string): seq<Sse.Chunk> {
    if t == [] then []
    else (match t[0]
          case Append(_, _, _, _) => [Sse.Sent(Reconnect.EventOf(t[0], data))]
          case Heartbeat => [Sse.Keepalive]
          case _ => []) + Chunks(t[1..], data)
  }

  lemma {:induction false} PairedAppend(a: seq<Effect>, b: seq<Effect>)
    requires Paired(a) && Paired(b)
    ensures Paired(a + b)
    decreases |a|
  {
    if a == [] {
      assert a + b == b;
    } else if a[0].Append? {
      assert (a + b)[2..] == a[2..] + b;
      PairedAppend(a[2..], b);
    } else {
      assert (a + b)[1..] == a[1..] + b;
      PairedAppend(a[1..], b);
    }
  }

  lemma PairedEmit(frame: Framer, k: Kind, about: string, id: int)
    ensures Paired(Emit(frame, k, about, id))
  {
    assert Emit(frame, k, about, id)[2..] == [];
  }

  lemma PairedMarker(e: Effect, t: seq<Effect>)
    requires Paired(t) && !e.Append? && !e.Yield?
    ensures Paired([e] + t)
  {
    assert ([e] + t)[1..] == t;
  }

  lemma PairedFault(mode: Mode, frame: Framer, env: Env, cancelish: bool, next: int)
    ensures Paired(AfterFault(mode, frame, env, cancelish, next))
  {
    PairedEmit(frame, Cancel, "cancelled", next);
    PairedEmit(frame, Failure, "harness_error", next);
  }

  lemma PairedCalled(mode: Mode, frame: Framer, env: Env, next: int)
    ensures Paired(Called(mode, frame, env, next))
  {
    PairedEmit(frame, Usage, "", next);
    PairedEmit(frame, Done, "", next + 2);
    PairedEmit(frame, Failure, "quota_finalization_failed", next);
    PairedAppend(Emit(frame, Usage, "", next), Emit(frame, Done, "", next + 2));
    PairedMarker(FinalizationReturned(env.recorded), Closing(frame, env.recorded, next));
    PairedFault(mode, frame, env, env.finalizing.RuntimeFault? && env.finalizing.cancelish, next);
  }

  lemma PairedEnd(mode: Mode, frame: Framer, env: Env, next: int, productive: bool)
    ensures Paired(Course(mode, frame, env, [], next, productive))
  {
    PairedCalled(mode, frame, env, next);
    PairedMarker(CallFinalization, Called(mode, frame, env, next));
    PairedFault(mode, frame, env, env.saving.RuntimeFault? && env.saving.cancelish, next);
    PairedMarker(LowerFlag, Accounting(mode, frame, env, next));
    PairedFault(mode, frame, env, env.harness.RuntimeFault? && env.harness.cancelish, next);
    PairedFault(mode, frame, env, false, next);
  }

  lemma PairedItem(mode: Mode, frame: Framer, x: StreamItem, next: int)
    ensures Paired(ItemEffects(mode, frame, x, next))
  {
    assert [Heartbeat][1..] == [];
    PairedEmit(frame, Cancel, "cancelled by client", next);
    if IsTool(mode, x) {
      var call := x.item.tool.value;
      PairedEmit(frame, ToolCallEvent, call.body, next);
      PairedEmit(frame, ToolResult, call.id, next + 1);
      PairedAppend(Emit(frame, ToolCallEvent, call.body, next), Emit(frame, ToolResult, call.id, next + 1));
    } else if IsText(mode, x) {
      PairedEmit(frame, Token, x.item.text, next);
    }
  }

  lemma {:induction false} PairedCourse(mode: Mode, frame: Framer, env: Env, items: seq<StreamItem>, next: int,
                                        productive: bool)
    ensures Paired(Course(mode, frame, env, items, next, productive))
    decreases |items|
  {
    if items == [] {
      PairedEnd(mode, frame, env, next, productive);
    } else {
      var x := items[0];
      var id, more := NextId(mode, x, next), productive || IsTool(mode, x) || IsText(mode, x);
      PairedItem(mode, frame, x, next);
      PairedCourse(mode, frame, env, items[1..], id, more);
      PairedAppend(ItemEffects(mode, frame, x, next), Course(mode, frame, env, items[1..], id, more));
      CourseStep(mode, frame, env, items, next, productive);
    }
  }

  /** A beginning of a paired trace that ends with an output is paired. */
  lemma {:induction false} PairedCut(t: seq<Effect>, full: seq<Effect>)
    requires Paired(full) && Cut(t, full)
    ensures Paired(t)
    decreases |t|
  {
    if t != [] && t != full {
      if t[0].Append? {
        assert |t| >= 2;
        if |t| > 2 {
          assert t[2..][|t| - 3] == t[|t| - 1];
        }
        if t[2..] != [] {
          PairedCut(t[2..], full[2..]);
        }
      } else if |t| > 1 {
        assert t[1..][|t| - 2] == t[|t| - 1];
        PairedCut(t[1..], full[1..]);
      }
    }
  }

  lemma SilentChunk(t: seq<Effect>, data: (Kind, string) -> string)
    requires t != [] && !t[0].Append?
    ensures Chunks(t, data) == if t[0].Heartbeat? then [Sse.Keepalive] + Chunks(t[1..], data) else Chunks(t[1..], data)
    ensures t[0].Yield? || Wire(t) == if t[0].Heartbeat? then Sse.KEEPALIVE + Wire(t[1..]) else Wire(t[1..])
  {
  }

  lemma PairStep(t: seq<Effect>, data: (Kind, string) -> string)
    requires Paired(t) && t != [] && t[0].Append?
    ensures Wire(t) == t[0].frame + Wire(t[2..])
    ensures Chunks(t, data) == [Sse.Sent(Reconnect.EventOf(t[0], data))] + Chunks(t[2..], data)
  {
    assert t[1..][1..] == t[2..];
    assert [] + Chunks(t[2..], data) == Chunks(t[2..], data);
  }

  lemma SseWireStep(chunk: Sse.Chunk, rest: seq<Sse.Chunk>)
    ensures Sse.Wire([chunk] + rest)
         == (match chunk case Sent(e) => Sse.Frame(e) case Keepalive => ": keepalive\n\n") + Sse.Wire(rest)
  {
    assert ([chunk] + rest)[1..] == rest;
  }

  /** What goes out is the frames of the stored events with keepalives in between. */
  lemma {:induction false} WireIsChunks(t: seq<Effect>, data: (Kind, string) -> string)
    requires Paired(t) && Reconnect.Formed(t, SseFramer(data))
    ensures Wire(t) == Sse.Wire(Chunks(t, data))
    decreases |t|
  {
    if t != [] {
      if t[0].Append? {
        assert t[0] in t;
        PairStep(t, data);
        WireIsChunks(t[2..], data);
        SseWireStep(Sse.Sent(Reconnect.EventOf(t[0], data)), Chunks(t[2..], data));
      } else {
        SilentChunk(t, data);
        WireIsChunks(t[1..], data);
        SseWireStep(Sse.Keepalive, Chunks(t[1..], data));
      }
    }
  }

  lemma EventsStep(t: seq<Effect>, data: (Kind, string) -> string)
    requires t != []
    ensures Reconnect.EventsOf(t, data)
         == (if t[0].Append? then [Reconnect.EventOf(t[0], data)] else []) + Reconnect.EventsOf(t[1..], data)
  {
    assert t == [t[0]] + t[1..];
    LogsAppend([t[0]], t[1..]);
    LogOne(t[0]);
  }

  lemma MessagesStep(e: Sse.Event, rest: seq<Sse.Event>)
    ensures Reconnect.Messages([e] + rest) == [Sse.Delivered(e, "", None)] + Reconnect.Messages(rest)
  {
  }

  lemma ExpectedStep(chunk: Sse.Chunk, rest: seq<Sse.Chunk>, id: string, retry: Option<int>)
    ensures Sse.Expected([chunk] + rest, id, retry)
         == match chunk
            case Keepalive => Sse.Expected(rest, id, retry)
            case Sent(e) =>
              [Sse.Delivered(e, id, retry)] + Sse.Expected(rest, Sse.IdAfter(e, id), Sse.RetryAfter(e, retry))
  {
    assert ([chunk] + rest)[1..] == rest;
  }

  /** Keepalives are not messages. */
  lemma {:induction false} ChunksTellLog(t: seq<Effect>, data: (Kind, string) -> string, id: string, retry: Option<int>)
    ensures Sse.Expected(Chunks(t, data), id, retry) == Reconnect.Messages(Reconnect.EventsOf(t, data))
    decreases |t|
  {
    if t != [] {
      EventsStep(t, data);
      if t[0].Append? {
        var e := Reconnect.EventOf(t[0], data);
        ChunksTellLog(t[1..], data, Sse.IdAfter(e, id), Sse.RetryAfter(e, retry));
        ExpectedStep(Sse.Sent(e), Chunks(t[1..], data), id, retry);
        MessagesStep(e, Reconnect.EventsOf(t[1..], data));
        assert Sse.Delivered(e, id, retry) == Sse.Delivered(e, "", None);
      } else {
        ChunksTellLog(t[1..], data, id, retry);
        SilentChunk(t, data);
        ExpectedStep(Sse.Keepalive, Chunks(t[1..], data), id, retry);
        assert [] + Reconnect.EventsOf(t[1..], data) == Reconnect.EventsOf(t[1..], data);
      }
    }
  }

  lemma ChunksAreSendable(t: seq<Effect>, data: (Kind, string) -> string)
    ensures Sse.Sendable(Chunks(t, data))
  {
  }

  /** A connected client reads, through all heartbeats, the first messages of the script, as many as were stored when it
      left, and all of them if it stays. */
  lemma LiveClientReadsScript(mode: Mode, data: (Kind, string) -> string, env: Env, items: seq<StreamItem>,
                              done: seq<Effect>)
    requires Cut(done, FullCourse(mode, SseFramer(data), env, items))
    ensures Sse.Read(Wire(done)) == Sse.Read(Reconnect.Flatten(History.Payloads(Entries(done))))
    ensures |Log(done)| <= |Script(mode, env, items)|
    ensures Sse.Read(Wire(done)) == MessagesOf(Script(mode, env, items), data)[..|Log(done)|]
  {
    var frame := SseFramer(data);
    var full := FullCourse(mode, frame, env, items);
    PairedEmit(frame, Start, "", 1);
    PairedCourse(mode, frame, env, items, 2, false);
    PairedAppend(Emit(frame, Start, "", 1), Course(mode, frame, env, items, 2, false));
    PairedCut(done, full);
    Reconnect.FullFormed(mode, frame, env, items, done);
    WireIsChunks(done, data);
    ChunksAreSendable(done, data);
    Sse.ReadsWhatWasSent(Chunks(done, data));
    ChunksTellLog(done, data, "", None);
    ClientReadsScript(mode, data, env, items, done);
    Reconnect.StreamStands(mode, data, env, items, done);
    Reconnect.ReadEntries(Reconnect.EventsOf(done, data), Entries(done));
  }

  // ----- heartbeats

  function Beats(): Effect -> bool {
    (e: Effect) => e.Heartbeat?
  }

  /** Heartbeats among the items, up to the one that ends the stream. */
  function Pauses(mode: Mode, items: seq<StreamItem>): nat {
    if items == [] || !Undisturbed(mode, [items[0]]) then 0
    else (if items[0].Keepalive? then 1 else 0) + Pauses(mode, items[1..])
  }

  lemma ItemBeats(mode: Mode, frame: Framer, x: StreamItem, next: int)
    ensures Count(ItemEffects(mode, frame, x, next), Beats()) == if x.Keepalive? then 1 else 0
  {
    if !x.Keepalive? {
      CountNone(ItemEffects(mode, frame, x, next), Beats());
    }
  }

  lemma EndBeats(mode: Mode, frame: Framer, env: Env, next: int, productive: bool)
    ensures Count(Course(mode, frame, env, [], next, productive), Beats()) == 0
  {
    assert forall e :: e in Called(mode, frame, env, next) ==> !e.Heartbeat?;
    assert forall e :: e in AfterItems(mode, frame, env, next, productive) ==> !e.Heartbeat?;
    CountNone(Course(mode, frame, env, [], next, productive), Beats());
  }

  /** One heartbeat goes out for every wait that timed out. */
  lemma {:induction false} CourseBeats(mode: Mode, frame: Framer, env: Env, items: seq<StreamItem>, next: int,
                                       productive: bool)
    ensures Count(Course(mode, frame, env, items, next, productive), Beats()) == Pauses(mode, items)
    decreases |items|
  {
    if items == [] {
      EndBeats(mode, frame, env, next, productive);
    } else {
      var x := items[0];
      var id, more := NextId(mode, x, next), productive || IsTool(mode, x) || IsText(mode, x);
      ItemBeats(mode, frame, x, next);
      OneItem(mode, x);
      CourseStep(mode, frame, env, items, next, productive);
      CourseBeats(mode, frame, env, items[1..], id, more);
      WhereAppend(ItemEffects(mode, frame, x, next), Course(mode, frame, env, items[1..], id, more), Beats());
    }
  }
}
