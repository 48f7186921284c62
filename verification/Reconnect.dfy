/** Dropping a stream and coming back with the last event id the client saw. */
module Reconnect {
  import opened Rows
  import opened Pump
  import opened StreamCourse
  import opened StreamLaws
  import opened History
  import Text
  import Identity
  import Sse

  // ----- every stored frame comes from the framer

  predicate Formed(t: seq<Effect>, frame: Framer) {
    forall e :: e in t && e.Append? ==> e.frame == frame(e.kind, e.id, e.about)
  }

  lemma EndFormed(mode: Mode, frame: Framer, env: Env, next: int, productive: bool)
    ensures Formed(Course(mode, frame, env, [], next, productive), frame)
  {
    assert Formed(Closing(frame, env.recorded, next), frame);
    assert Formed(Called(mode, frame, env, next), frame);
    assert Formed(Accounting(mode, frame, env, next), frame);
  }

  lemma {:induction false} CourseFormed(mode: Mode, frame: Framer, env: Env, items: seq<StreamItem>, next: int,
                                        productive: bool)
    ensures Formed(Course(mode, frame, env, items, next, productive), frame)
    decreases |items|
  {
    if items == [] {
      EndFormed(mode, frame, env, next, productive);
    } else {
      var x := items[0];
      CourseStep(mode, frame, env, items, next, productive);
      assert Formed(ItemEffects(mode, frame, x, next), frame);
      CourseFormed(mode, frame, env, items[1..], NextId(mode, x, next),
                   productive || IsTool(mode, x) || IsText(mode, x));
    }
  }

  lemma FullFormed(mode: Mode, frame: Framer, env: Env, items: seq<StreamItem>, done: seq<Effect>)
    requires done <= FullCourse(mode, frame, env, items)
    ensures Formed(done, frame)
  {
    CourseFormed(mode, frame, env, items, 2, false);
    assert Formed(FullCourse(mode, frame, env, items), frame);
    assert forall e :: e in done ==> e in FullCourse(mode, frame, env, items);
  }

  // ----- the events a stream stands for

  /** An event that states its own id and retry time. */
  predicate SelfContained(e: Sse.Event, id: int) {
    e.id == Some(id) && e.retry == Some(RETRY_MS) && Sse.Terse(e.name)
  }

  predicate Stands(events: seq<Sse.Event>, entries: seq<Entry>) {
    |events| == |entries|
    && forall i :: 0 <= i < |events| ==>
         SelfContained(events[i], entries[i].id) && entries[i].payload == Sse.Frame(events[i])
  }

  /** The event stored by an effect. */
  function EventOf(e: Effect, data: (Kind, string) -> string): (event: Sse.Event)
    requires e.Append?
    ensures SelfContained(event, e.id)
  {
    Sse.Event(EventName(e.kind), DataOf(data, e.kind, e.about), Some(e.id), Some(RETRY_MS))
  }

  /** The events stored by a trace. */
  function EventsOf(t: seq<Effect>, data: (Kind, string) -> string): (events: seq<Sse.Event>)
    ensures |events| == |Log(t)|
  {
    seq(|Log(t)|, i requires 0 <= i < |Log(t)| => EventOf(Log(t)[i], data))
  }

  // ----- reading part by part

  function Flatten(frames: seq<string>): string {
    if frames == [] then "" else frames[0] + Flatten(frames[1..])
  }

  function Sents(events: seq<Sse.Event>): (chunks: seq<Sse.Chunk>)
    ensures |chunks| == |events|
  {
    seq(|events|, i requires 0 <= i < |events| => Sse.Sent(events[i]))
  }

  function Messages(events: seq<Sse.Event>): (m: seq<Sse.Message>)
    ensures |m| == |events|
  {
    seq(|events|, i requires 0 <= i < |events| => Sse.Delivered(events[i], "", None))
  }

  lemma {:induction false} ExpectedOfSelfContained(events: seq<Sse.Event>, id: string, retry: Option<int>)
    requires forall i :: 0 <= i < |events| ==> events[i].id.Some? && events[i].retry == Some(RETRY_MS)
    ensures Sse.Expected(Sents(events), id, retry) == Messages(events)
    decreases |events|
  {
    if events != [] {
      var e := events[0];
      assert Sents(events)[1..] == Sents(events[1..]);
      ExpectedOfSelfContained(events[1..], Sse.IdAfter(e, id), Sse.RetryAfter(e, retry));
      assert Sse.Delivered(e, id, retry) == Sse.Delivered(e, "", None);
      assert Messages(events) == [Sse.Delivered(e, "", None)] + Messages(events[1..]);
    }
  }

  lemma {:induction false} FlattenIsWire(events: seq<Sse.Event>, entries: seq<Entry>)
    requires Stands(events, entries)
    ensures Flatten(Payloads(entries)) == Sse.Wire(Sents(events))
    decreases |events|
  {
    if events != [] {
      assert Sents(events)[1..] == Sents(events[1..]);
      assert Payloads(entries)[1..] == Payloads(entries[1..]);
      FlattenIsWire(events[1..], entries[1..]);
    }
  }

  /** A client reading a run of stored frames gets exactly their messages. */
  lemma ReadEntries(events: seq<Sse.Event>, entries: seq<Entry>)
    requires Stands(events, entries)
    ensures Sse.Read(Flatten(Payloads(entries))) == Messages(events)
  {
    FlattenIsWire(events, entries);
    Sse.ReadsWhatWasSent(Sents(events));
    ExpectedOfSelfContained(events, "", None);
  }

  // ----- the round trip

  /** The id in the last message a client saw, sent back as a header, is the id of the last entry it was sent. */
  lemma HeaderNamesLastEntry(events: seq<Sse.Event>, entries: seq<Entry>, j: nat)
    requires Stands(events, entries) && j < |entries| && entries[j].id >= 0
    ensures var seen := Sse.Read(Flatten(Payloads(entries[..j + 1])));
            && |seen| == j + 1
            && Identity.ValidateLastEventId(Some(seen[j].lastEventId)) == Identity.Ok(Some(entries[j].id))
  {
    ReadEntries(events[..j + 1], entries[..j + 1]);
    assert events[..j + 1][j] == events[j];
    Text.ParseDec(entries[j].id);
  }

  lemma MessagesInTwoParts(events: seq<Sse.Event>, k: nat)
    requires k <= |events|
    ensures Messages(events[..k]) + Messages(events[k..]) == Messages(events)
  {
  }

  lemma PartStands(events: seq<Sse.Event>, entries: seq<Entry>, k: nat)
    requires Stands(events, entries) && k <= |entries|
    ensures Stands(events[..k], entries[..k]) && Stands(events[k..], entries[k..])
  {
  }

  lemma ReadInTwoParts(events: seq<Sse.Event>, entries: seq<Entry>, j: nat)
    requires Stands(events, entries) && j < |entries|
    ensures Sse.Read(Flatten(Payloads(entries[..j + 1]))) + Sse.Read(Flatten(Payloads(entries[j + 1..])))
         == Sse.Read(Flatten(Payloads(entries)))
  {
    PartStands(events, entries, j + 1);
    ReadEntries(events, entries);
    ReadEntries(events[..j + 1], entries[..j + 1]);
    ReadEntries(events[j + 1..], entries[j + 1..]);
    MessagesInTwoParts(events, j + 1);
  }

  /** The stored entries of any stream, cut anywhere, stand for self-contained events with positive ids. */
  lemma StreamStands(mode: Mode, data: (Kind, string) -> string, env: Env, items: seq<StreamItem>, done: seq<Effect>)
    requires done <= FullCourse(mode, SseFramer(data), env, items)
    ensures Stands(EventsOf(done, data), Entries(done))
    ensures forall i :: 0 <= i < |Entries(done)| ==> Entries(done)[i].id > 0
  {
    FullFormed(mode, SseFramer(data), env, items, done);
    IdsIncrease(mode, SseFramer(data), env, items, done);
    var l := Log(done);
    forall i | 0 <= i < |l| ensures l[i].frame == Sse.Frame(EventOf(l[i], data)) {
      assert l[i] in done;
    }
  }

  /** What was read before the cut names the cut, and together with what is read after it makes the whole. */
  lemma SeenAndMissed(events: seq<Sse.Event>, all: seq<Entry>, j: nat) returns (header: string, n: int)
    requires Stands(events, all) && j < |all| && all[j].id >= 0
    ensures n == all[j].id
    ensures var seen := Sse.Read(Flatten(Payloads(all)[..j + 1]));
            && |seen| == j + 1 && header == seen[j].lastEventId
            && Identity.ValidateLastEventId(Some(header)) == Identity.Ok(Some(n))
            && seen + Sse.Read(Flatten(Payloads(all[j + 1..]))) == Sse.Read(Flatten(Payloads(all)))
  {
    assert Payloads(all)[..j + 1] == Payloads(all[..j + 1]);
    HeaderNamesLastEntry(events, all, j);
    ReadInTwoParts(events, all, j);
    n := all[j].id;
    header := Sse.Read(Flatten(Payloads(all[..j + 1])))[j].lastEventId;
  }

  lemma BothStoresReplay(writes: seq<Write>, maxlen: nat, key: string, j: nat)
    requires Increasing(Written(writes, key)) && j < |Written(writes, key)|
    requires maxlen >= 1 && |Written(writes, key)| - (j + 1) <= maxlen
    ensures var all := Written(writes, key);
            && MemoryReplay(MemoryRun(writes, maxlen), key, all[j].id) == Payloads(all[j + 1..])
            && RedisReplay(RedisRun(writes, maxlen), key, all[j].id) == Payloads(all[j + 1..])
  {
    ReplayAfterCut(writes, maxlen, key, j);
    RedisRefinesMemory(writes, maxlen);
    assert AgreeOn(MemoryRun(writes, maxlen), RedisRun(writes, maxlen), maxlen, key);
  }

  /** A client that lost its connection after event `j` and sends back the last id it saw reads, in both parts together,
      exactly the messages of the whole stream, from either store, as long as the rest fits the buffer. */
  lemma ReconnectIsSeamless(mode: Mode, data: (Kind, string) -> string, env: Env, items: seq<StreamItem>,
                            done: seq<Effect>,
                            writes: seq<Write>, maxlen: nat, key: string, j: nat) returns (header: string, n: int)
    requires done <= FullCourse(mode, SseFramer(data), env, items)
    requires Written(writes, key) == Entries(done) && j < |Entries(done)| && |Entries(done)| - (j + 1) <= maxlen
    requires maxlen >= 1
    ensures var frames := Payloads(Entries(done));
            var seen := Sse.Read(Flatten(frames[..j + 1]));
            var replay := MemoryReplay(MemoryRun(writes, maxlen), key, n);
            && |seen| == j + 1 && header == seen[j].lastEventId
            && Identity.ValidateLastEventId(Some(header)) == Identity.Ok(Some(n))
            && seen + Sse.Read(Flatten(replay)) == Sse.Read(Flatten(frames))
            && RedisReplay(RedisRun(writes, maxlen), key, n) == replay
  {
    var all := Entries(done);
    var events := EventsOf(done, data);
    StreamStands(mode, data, env, items, done);
    IdsIncrease(mode, SseFramer(data), env, items, done);
    header, n := SeenAndMissed(events, all, j);
    BothStoresReplay(writes, maxlen, key, j);
  }

  /** Once a stream has stored an event, its id can only be resumed, never started again. */
  lemma StartedStreamOnlyResumes(endpoint: Identity.Endpoint, user: int, sid: string, resource: Option<int>,
                                 generated: string,
                                 writes: seq<Write>, maxlen: nat, key: string, lastEventId: Option<string>)
    requires maxlen >= 1 && Identity.BuildHistoryKey(endpoint, user, sid, resource) == Identity.Ok(key)
    requires Written(writes, key) != []
    ensures var known := (k: string) => MemoryExists(MemoryRun(writes, maxlen), k);
            var r := Identity.Resolve(endpoint, user, Some(sid), lastEventId, resource, generated, known);
            && (r.Ok? ==> r.value.isReconnect && r.value.historyKey == key)
            && (Identity.PatternMatches(sid) && lastEventId == None ==> r == Identity.Err(Identity.StreamIdConflict))
  {
    MemoryKeepsLast(writes, maxlen, key);
    var known := (k: string) => MemoryExists(MemoryRun(writes, maxlen), k);
    assert known(key);
    Identity.ResolveSeparatesStartFromResume(endpoint, user, sid, lastEventId, resource, generated, known);
  }
}
