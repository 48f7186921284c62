/** What every stream keeps, however its harness behaves and wherever its consumer closes. */
module StreamLaws {
  import opened Rows
  import opened Pump
  import opened StreamCourse
  import History

  // ----- the event log of a trace

  function Appends(): Effect -> bool {
    (e: Effect) => e.Append?
  }

  function Log(t: seq<Effect>): (l: seq<Effect>)
    ensures forall i :: 0 <= i < |l| ==> l[i] in l && l[i].Append?
  {
    Where(t, Appends())
  }

  function Kinds(t: seq<Effect>): (k: seq<Kind>)
    ensures |k| == |Log(t)|
  {
    KindsOf(Log(t))
  }

  lemma LogsAppend(a: seq<Effect>, b: seq<Effect>)
    ensures Log(a + b) == Log(a) + Log(b)
  {
    WhereAppend(a, b, Appends());
  }

  function KindsOf(l: seq<Effect>): (k: seq<Kind>)
    requires forall i :: 0 <= i < |l| ==> l[i].Append?
    ensures |k| == |l|
  {
    seq(|l|, i requires 0 <= i < |l| => l[i].kind)
  }

  lemma KindsOfAppend(a: seq<Effect>, b: seq<Effect>)
    requires forall i :: 0 <= i < |a| ==> a[i].Append?
    requires forall i :: 0 <= i < |b| ==> b[i].Append?
    ensures KindsOf(a + b) == KindsOf(a) + KindsOf(b)
  {
  }

  lemma LogAppend(a: seq<Effect>, b: seq<Effect>)
    ensures Log(a + b) == Log(a) + Log(b)
    ensures Kinds(a + b) == Kinds(a) + Kinds(b)
  {
    LogsAppend(a, b);
    KindsOfAppend(Log(a), Log(b));
  }

  lemma LogPrefix(a: seq<Effect>, b: seq<Effect>)
    requires a <= b
    ensures Log(a) <= Log(b) && Kinds(a) <= Kinds(b)
  {
    assert b == a + b[|a|..];
    LogAppend(a, b[|a|..]);
  }

  lemma LogOne(e: Effect)
    ensures Log([e]) == if e.Append? then [e] else []
    ensures Kinds([e]) == if e.Append? then [e.kind] else []
  {
    assert [e][1..] == [];
  }

  lemma LogEmit(frame: Framer, k: Kind, about: string, id: int)
    ensures Log(Emit(frame, k, about, id)) == [Append(k, id, about, frame(k, id, about))]
    ensures Kinds(Emit(frame, k, about, id)) == [k]
  {
    var a, y := Append(k, id, about, frame(k, id, about)), Yield(frame(k, id, about));
    assert Emit(frame, k, about, id) == [a] + [y];
    LogAppend([a], [y]);
    LogOne(a);
    LogOne(y);
  }

  // ----- the grammar

  /** (token | tool_call tool_result)* (cancel | error | usage done), with tool events on the completions endpoint
      only. */
  predicate Rest(mode: Mode, s: seq<Kind>) {
    || s == [Cancel]
    || s == [Failure]
    || s == [Usage, Done]
    || (|s| >= 1 && s[0] == Token && Rest(mode, s[1..]))
    || (mode.OpenAi? && |s| >= 2 && s[0] == ToolCallEvent && s[1] == ToolResult && Rest(mode, s[2..]))
  }

  predicate CompleteLog(mode: Mode, s: seq<Kind>) {
    s != [] && s[0] == Start && Rest(mode, s[1..])
  }

  /** Nothing goes wrong that the handler does not handle. */
  predicate Orderly(mode: Mode, env: Env, items: seq<StreamItem>) {
    && !env.harness.OtherFault? && !env.finalizing.OtherFault?
    && (mode.Conv? ==> !env.saving.OtherFault? && env.errorSaving)
    && (forall x :: x in items && IsTool(mode, x) ==> x.item.tool.value.wellFormed)
  }

  lemma FaultKinds(mode: Mode, frame: Framer, env: Env, cancelish: bool, next: int) returns (full: seq<Kind>)
    ensures Rest(mode, full) && Kinds(AfterFault(mode, frame, env, cancelish, next)) <= full
    ensures mode.OpenAi? || env.errorSaving ==> Kinds(AfterFault(mode, frame, env, cancelish, next)) == full
  {
    LogEmit(frame, Cancel, "cancelled", next);
    LogEmit(frame, Failure, "harness_error", next);
    full := if cancelish then [Cancel] else [Failure];
  }

  lemma ClosingKinds(frame: Framer, recorded: bool, next: int)
    ensures Kinds(Closing(frame, recorded, next)) == if recorded then [Usage, Done] else [Failure]
    ensures Numbered(Log(Closing(frame, recorded, next)), next)
  {
    LogAppend(Emit(frame, Usage, "", next), Emit(frame, Done, "", next + 2));
    LogEmit(frame, Usage, "", next);
    LogEmit(frame, Done, "", next + 2);
    LogEmit(frame, Failure, "quota_finalization_failed", next);
  }

  lemma CalledKinds(mode: Mode, frame: Framer, env: Env, next: int) returns (full: seq<Kind>)
    ensures Rest(mode, full) && Kinds(Called(mode, frame, env, next)) <= full
    ensures Orderly(mode, env, []) ==> Kinds(Called(mode, frame, env, next)) == full
  {
    if env.finalizing.OtherFault? {
      full := [Failure];
    } else if env.finalizing.RuntimeFault? {
      full := FaultKinds(mode, frame, env, env.finalizing.cancelish, next);
    } else {
      LogAppend([FinalizationReturned(env.recorded)], Closing(frame, env.recorded, next));
      LogOne(FinalizationReturned(env.recorded));
      ClosingKinds(frame, env.recorded, next);
      full := if env.recorded then [Usage, Done] else [Failure];
    }
  }

  lemma AccountingKinds(mode: Mode, frame: Framer, env: Env, next: int) returns (full: seq<Kind>)
    ensures Rest(mode, full) && Kinds(Accounting(mode, frame, env, next)) <= full
    ensures Orderly(mode, env, []) ==> Kinds(Accounting(mode, frame, env, next)) == full
  {
    if mode.Conv? && env.saving.OtherFault? {
      full := [Failure];
    } else if mode.Conv? && env.saving.RuntimeFault? {
      full := FaultKinds(mode, frame, env, env.saving.cancelish, next);
    } else {
      full := CalledKinds(mode, frame, env, next);
      LogAppend([CallFinalization], Called(mode, frame, env, next));
      LogOne(CallFinalization);
    }
  }

  lemma AfterItemsKinds(mode: Mode, frame: Framer, env: Env, next: int, productive: bool) returns (full: seq<Kind>)
    ensures Rest(mode, full) && Kinds(AfterItems(mode, frame, env, next, productive)) <= full
    ensures Orderly(mode, env, []) ==> Kinds(AfterItems(mode, frame, env, next, productive)) == full
  {
    if productive {
      full := AccountingKinds(mode, frame, env, next);
      LogAppend([LowerFlag], Accounting(mode, frame, env, next));
      LogOne(LowerFlag);
    } else {
      full := FaultKinds(mode, frame, env, false, next);
    }
  }

  lemma ItemKinds(mode: Mode, frame: Framer, x: StreamItem, next: int)
    ensures Kinds(ItemEffects(mode, frame, x, next)) ==
              if x.Cancelled? then [Cancel]
              else if IsTool(mode, x) && x.item.tool.value.wellFormed then [ToolCallEvent, ToolResult]
              else if IsText(mode, x) then [Token]
              else []
  {
    LogOne(Heartbeat);
    LogEmit(frame, Cancel, "cancelled by client", next);
    if IsTool(mode, x) {
      var call := x.item.tool.value;
      LogEmit(frame, ToolCallEvent, call.body, next);
      LogEmit(frame, ToolResult, call.id, next + 1);
      LogAppend(Emit(frame, ToolCallEvent, call.body, next), Emit(frame, ToolResult, call.id, next + 1));
    } else if IsText(mode, x) {
      LogEmit(frame, Token, x.item.text, next);
    }
  }

  /** What one harness item that does not end the stream may log. */
  predicate Head(mode: Mode, head: seq<Kind>) {
    head == [] || head == [Token] || (mode.OpenAi? && head == [ToolCallEvent, ToolResult])
  }

  lemma RestPush(mode: Mode, head: seq<Kind>, rest: seq<Kind>)
    requires Rest(mode, rest) && Head(mode, head)
    ensures Rest(mode, head + rest)
  {
    if head == [] {
      assert head + rest == rest;
    } else {
      assert (head + rest)[|head|..] == rest;
    }
  }

  lemma ItemHead(mode: Mode, frame: Framer, x: StreamItem, next: int)
    ensures var kinds := Kinds(ItemEffects(mode, frame, x, next));
            if EndsStream(mode, x) then kinds == (if x.Cancelled? then [Cancel] else []) else Head(mode, kinds)
  {
    ItemKinds(mode, frame, x, next);
  }

  /** What may still come after the last harness item. */
  lemma EndKinds(mode: Mode, frame: Framer, env: Env, next: int, productive: bool) returns (full: seq<Kind>)
    ensures Rest(mode, full) && Kinds(Course(mode, frame, env, [], next, productive)) <= full
    ensures Orderly(mode, env, []) ==> Kinds(Course(mode, frame, env, [], next, productive)) == full
  {
    match env.harness {
      case Fine => full := AfterItemsKinds(mode, frame, env, next, productive);
      case RuntimeFault(c) => full := FaultKinds(mode, frame, env, c, next);
      case OtherFault => full := [Failure];
    }
  }

  lemma {:induction false} CourseKinds(mode: Mode, frame: Framer, env: Env, items: seq<StreamItem>, next: int,
                                       productive: bool)
    returns (full: seq<Kind>)
    ensures Rest(mode, full) && Kinds(Course(mode, frame, env, items, next, productive)) <= full
    ensures Orderly(mode, env, items) ==> Kinds(Course(mode, frame, env, items, next, productive)) == full
    decreases |items|
  {
    if items == [] {
      full := EndKinds(mode, frame, env, next, productive);
    } else {
      var x := items[0];
      var head := ItemEffects(mode, frame, x, next);
      var id, more := NextId(mode, x, next), productive || IsTool(mode, x) || IsText(mode, x);
      ItemHead(mode, frame, x, next);
      CourseStep(mode, frame, env, items, next, productive);
      if EndsStream(mode, x) {
        full := if x.Cancelled? then [Cancel] else [Failure];
      } else {
        var rest := CourseKinds(mode, frame, env, items[1..], id, more);
        LogAppend(head, Course(mode, frame, env, items[1..], id, more));
        RestPush(mode, Kinds(head), rest);
        full := Kinds(head) + rest;
      }
    }
  }

  /** Every stream's log is a beginning of a complete log, and a complete one if nothing unhandled happens and nobody
      closes. */
  lemma LogFollowsGrammar(mode: Mode, frame: Framer, env: Env, items: seq<StreamItem>, done: seq<Effect>)
    returns (full: seq<Kind>)
    requires done <= FullCourse(mode, frame, env, items)
    ensures CompleteLog(mode, full) && Kinds(done) <= full
    ensures Orderly(mode, env, items) && done == FullCourse(mode, frame, env, items) ==> Kinds(done) == full
  {
    var rest := CourseKinds(mode, frame, env, items, 2, false);
    var course := Course(mode, frame, env, items, 2, false);
    LogAppend(Emit(frame, Start, "", 1), course);
    LogEmit(frame, Start, "", 1);
    LogPrefix(done, FullCourse(mode, frame, env, items));
    full := [Start] + rest;
    assert full[1..] == rest;
  }

  // ----- event ids

  /** Ids count up by one; only `done`, which comes last, skips a number. */
  predicate Numbered(l: seq<Effect>, next: int) {
    forall i :: 0 <= i < |l| ==>
      l[i].Append? && l[i].id == next + i + (if l[i].kind == Done then 1 else 0) && (l[i].kind == Done ==> i == |l| - 1)
  }

  lemma NumberedAppend(a: seq<Effect>, b: seq<Effect>, next: int)
    requires Numbered(a, next) && Numbered(b, next + |a|)
    requires forall i :: 0 <= i < |a| ==> a[i].kind != Done
    ensures Numbered(a + b, next)
  {
  }

  lemma FaultNumbered(mode: Mode, frame: Framer, env: Env, cancelish: bool, next: int)
    ensures Numbered(Log(AfterFault(mode, frame, env, cancelish, next)), next)
  {
    LogEmit(frame, Cancel, "cancelled", next);
    LogEmit(frame, Failure, "harness_error", next);
  }

  lemma CalledNumbered(mode: Mode, frame: Framer, env: Env, next: int)
    ensures Numbered(Log(Called(mode, frame, env, next)), next)
  {
    if env.finalizing.OtherFault? {
    } else if env.finalizing.RuntimeFault? {
      FaultNumbered(mode, frame, env, env.finalizing.cancelish, next);
    } else {
      var tail := Closing(frame, env.recorded, next);
      ClosingKinds(frame, env.recorded, next);
      LogAppend([FinalizationReturned(env.recorded)], tail);
      LogOne(FinalizationReturned(env.recorded));
      assert [] + Log(tail) == Log(tail);
    }
  }

  lemma AccountingNumbered(mode: Mode, frame: Framer, env: Env, next: int)
    ensures Numbered(Log(Accounting(mode, frame, env, next)), next)
  {
    if mode.Conv? && env.saving.OtherFault? {
    } else if mode.Conv? && env.saving.RuntimeFault? {
      FaultNumbered(mode, frame, env, env.saving.cancelish, next);
    } else {
      var tail := Called(mode, frame, env, next);
      CalledNumbered(mode, frame, env, next);
      LogAppend([CallFinalization], tail);
      LogOne(CallFinalization);
      assert [] + Log(tail) == Log(tail);
    }
  }

  lemma ToolNumbered(frame: Framer, call: ToolCall, next: int)
    ensures var l := Log(Emit(frame, ToolCallEvent, call.body, next) + Emit(frame, ToolResult, call.id, next + 1));
            Numbered(l, next) && |l| == 2 && l[0].kind == ToolCallEvent && l[1].kind == ToolResult
  {
    LogEmit(frame, ToolCallEvent, call.body, next);
    LogEmit(frame, ToolResult, call.id, next + 1);
    LogsAppend(Emit(frame, ToolCallEvent, call.body, next), Emit(frame, ToolResult, call.id, next + 1));
  }

  lemma ItemNumbered(mode: Mode, frame: Framer, x: StreamItem, next: int)
    ensures var l := Log(ItemEffects(mode, frame, x, next));
            && Numbered(l, next) && (!EndsStream(mode, x) ==> |l| == NextId(mode, x, next) - next)
            && (forall i :: 0 <= i < |l| ==> l[i].kind != Done)
  {
    if x.Keepalive? {
      LogOne(Heartbeat);
    } else if x.Cancelled? {
      LogEmit(frame, Cancel, "cancelled by client", next);
    } else if IsTool(mode, x) {
      ToolNumbered(frame, x.item.tool.value, next);
    } else if IsText(mode, x) {
      LogEmit(frame, Token, x.item.text, next);
    }
  }

  lemma {:induction false} CourseNumbered(mode: Mode, frame: Framer, env: Env, items: seq<StreamItem>, next: int,
                                          productive: bool)
    ensures Numbered(Log(Course(mode, frame, env, items, next, productive)), next)
    decreases |items|
  {
    if items == [] {
      match env.harness {
        case Fine =>
          FaultNumbered(mode, frame, env, false, next);
          AccountingNumbered(mode, frame, env, next);
          LogAppend([LowerFlag], Accounting(mode, frame, env, next));
          LogOne(LowerFlag);
        case RuntimeFault(c) => FaultNumbered(mode, frame, env, c, next);
        case OtherFault =>
      }
    } else {
      var x := items[0];
      var head := ItemEffects(mode, frame, x, next);
      ItemNumbered(mode, frame, x, next);
      if EndsStream(mode, x) {
        assert head + [] == head;
      } else {
        var id, more := NextId(mode, x, next), productive || IsTool(mode, x) || IsText(mode, x);
        var rest := Course(mode, frame, env, items[1..], id, more);
        CourseNumbered(mode, frame, env, items[1..], id, more);
        LogAppend(head, rest);
        NumberedAppend(Log(head), Log(rest), next);
      }
    }
  }

  /** The stored entries of a trace, as the history keeps them. */
  function Entries(t: seq<Effect>): (es: seq<History.Entry>)
    ensures |es| == |Log(t)|
  {
    seq(|Log(t)|, i requires 0 <= i < |Log(t)| => History.Entry(Log(t)[i].id, Log(t)[i].frame))
  }

  lemma FullCourseNumbered(mode: Mode, frame: Framer, env: Env, items: seq<StreamItem>)
    ensures Numbered(Log(FullCourse(mode, frame, env, items)), 1)
  {
    var course := Course(mode, frame, env, items, 2, false);
    CourseNumbered(mode, frame, env, items, 2, false);
    LogAppend(Emit(frame, Start, "", 1), course);
    LogEmit(frame, Start, "", 1);
    NumberedAppend(Log(Emit(frame, Start, "", 1)), Log(course), 1);
  }

  lemma NumberedEntries(done: seq<Effect>, full: seq<Effect>)
    requires Log(done) <= Log(full) && Numbered(Log(full), 1)
    ensures forall i :: 0 <= i < |Log(done)| ==> Log(done)[i].id == i + 1 + (if Log(done)[i].kind == Done then 1 else 0)
    ensures History.Increasing(Entries(done))
  {
  }

  /** Ids are 1, 2, 3, … with one number skipped before `done`; in particular they strictly increase from 1. */
  lemma IdsIncrease(mode: Mode, frame: Framer, env: Env, items: seq<StreamItem>, done: seq<Effect>)
    requires done <= FullCourse(mode, frame, env, items)
    ensures forall i :: 0 <= i < |Log(done)| ==> Log(done)[i].id == i + 1 + (if Log(done)[i].kind == Done then 1 else 0)
    ensures History.Increasing(Entries(done))
  {
    FullCourseNumbered(mode, frame, env, items);
    LogPrefix(done, FullCourse(mode, frame, env, items));
    NumberedEntries(done, FullCourse(mode, frame, env, items));
  }

  // ----- order of effects

  /** Whatever is yielded was stored immediately before. */
  predicate StoredFirst(t: seq<Effect>) {
    forall i :: 0 <= i < |t| && t[i].Yield? ==> i > 0 && t[i - 1].Append? && t[i - 1].frame == t[i].frame
  }

  /** Usage and done are stored only after finalization returned a record; finalization returns only after it began. */
  ghost predicate Accounted(t: seq<Effect>) {
    && (forall j :: 0 <= j < |t| && t[j].Append? && (t[j].kind == Done || t[j].kind == Usage) ==>
          Earlier(t, j, FinalizationReturned(true)))
    && (forall j :: 0 <= j < |t| && t[j].FinalizationReturned? ==> Earlier(t, j, CallFinalization))
    && (forall j :: 0 <= j < |t| && t[j].CallFinalization? ==> Earlier(t, j, LowerFlag))
  }

  ghost predicate Earlier(t: seq<Effect>, j: nat, e: Effect)
    requires j <= |t|
  {
    exists i :: 0 <= i < j && t[i] == e
  }

  lemma EarlierShift(a: seq<Effect>, b: seq<Effect>, j: nat, e: Effect)
    requires j <= |b| && Earlier(b, j, e)
    ensures Earlier(a + b, |a| + j, e)
  {
    var i :| 0 <= i < j && b[i] == e;
    assert (a + b)[|a| + i] == e;
  }

  lemma EarlierKept(a: seq<Effect>, b: seq<Effect>, j: nat, e: Effect)
    requires j <= |a| && Earlier(a, j, e)
    ensures Earlier(a + b, j, e)
  {
    var i :| 0 <= i < j && a[i] == e;
    assert (a + b)[i] == e;
  }

  lemma OrderAppend(a: seq<Effect>, b: seq<Effect>)
    requires StoredFirst(a) && Accounted(a) && StoredFirst(b) && Accounted(b)
    ensures StoredFirst(a + b) && Accounted(a + b)
  {
    var t := a + b;
    forall i | 0 <= i < |t| && t[i].Yield? ensures i > 0 && t[i - 1].Append? && t[i - 1].frame == t[i].frame {
      if i >= |a| {
        assert t[i] == b[i - |a|] && t[i - 1] == b[i - |a| - 1];
      }
    }
    forall j, e | 0 <= j < |t| && (if j < |a| then Earlier(a, j, e) else Earlier(b, j - |a|, e))
      ensures Earlier(t, j, e)
    {
      if j < |a| {
        EarlierKept(a, b, j, e);
      } else {
        EarlierShift(a, b, j - |a|, e);
      }
    }
  }

  lemma EmitOrder(frame: Framer, k: Kind, about: string, id: int)
    requires k != Done && k != Usage
    ensures StoredFirst(Emit(frame, k, about, id)) && Accounted(Emit(frame, k, about, id))
  {
  }

  lemma FaultOrder(mode: Mode, frame: Framer, env: Env, cancelish: bool, next: int)
    ensures var t := AfterFault(mode, frame, env, cancelish, next); StoredFirst(t) && Accounted(t)
  {
  }

  lemma ReturnedOrder(frame: Framer, recorded: bool, next: int)
    ensures var t := [LowerFlag, CallFinalization, FinalizationReturned(recorded)] + Closing(frame, recorded, next);
            StoredFirst(t) && Accounted(t)
  {
    var t := [LowerFlag, CallFinalization, FinalizationReturned(recorded)] + Closing(frame, recorded, next);
    assert t[0] == LowerFlag && t[1] == CallFinalization && t[2] == FinalizationReturned(recorded);
    forall j | 3 <= j < |t| ensures Earlier(t, j, FinalizationReturned(recorded)) {}
    assert Earlier(t, 2, CallFinalization) && Earlier(t, 1, LowerFlag);
  }

  /** What follows the call is in order once the call is made. */
  lemma CalledOrder(mode: Mode, frame: Framer, env: Env, next: int)
    ensures var t := [LowerFlag] + ([CallFinalization] + Called(mode, frame, env, next)); StoredFirst(t) && Accounted(t)
  {
    var begin := [LowerFlag, CallFinalization];
    assert [LowerFlag] + ([CallFinalization] + Called(mode, frame, env, next))
        == begin + Called(mode, frame, env, next);
    assert Earlier(begin, 1, LowerFlag) by {
      assert begin[0] == LowerFlag;
    }
    if env.finalizing.OtherFault? {
      assert begin + [] == begin;
    } else if env.finalizing.RuntimeFault? {
      FaultOrder(mode, frame, env, env.finalizing.cancelish, next);
      OrderAppend(begin, AfterFault(mode, frame, env, env.finalizing.cancelish, next));
    } else {
      ReturnedOrder(frame, env.recorded, next);
      assert begin + Called(mode, frame, env, next)
          == [LowerFlag, CallFinalization, FinalizationReturned(env.recorded)] + Closing(frame, env.recorded, next);
    }
  }

  /** The accounting part is in order once the flag is down. */
  lemma AccountingOrder(mode: Mode, frame: Framer, env: Env, next: int)
    ensures var t := [LowerFlag] + Accounting(mode, frame, env, next); StoredFirst(t) && Accounted(t)
  {
    if mode.Conv? && env.saving.OtherFault? {
      assert [LowerFlag] + Accounting(mode, frame, env, next) == [LowerFlag];
    } else if mode.Conv? && env.saving.RuntimeFault? {
      FaultOrder(mode, frame, env, env.saving.cancelish, next);
      OrderAppend([LowerFlag], AfterFault(mode, frame, env, env.saving.cancelish, next));
    } else {
      CalledOrder(mode, frame, env, next);
    }
  }

  lemma ItemOrder(mode: Mode, frame: Framer, x: StreamItem, next: int)
    ensures var t := ItemEffects(mode, frame, x, next); StoredFirst(t) && Accounted(t)
  {
  }

  lemma {:induction false} CourseOrder(mode: Mode, frame: Framer, env: Env, items: seq<StreamItem>, next: int,
                                       productive: bool)
    ensures var t := Course(mode, frame, env, items, next, productive); StoredFirst(t) && Accounted(t)
    decreases |items|
  {
    if items == [] {
      match env.harness {
        case Fine =>
          FaultOrder(mode, frame, env, false, next);
          AccountingOrder(mode, frame, env, next);
        case RuntimeFault(c) => FaultOrder(mode, frame, env, c, next);
        case OtherFault =>
      }
    } else {
      var x := items[0];
      var head := ItemEffects(mode, frame, x, next);
      ItemOrder(mode, frame, x, next);
      if EndsStream(mode, x) {
        assert head + [] == head;
      } else {
        var id, more := NextId(mode, x, next), productive || IsTool(mode, x) || IsText(mode, x);
        CourseOrder(mode, frame, env, items[1..], id, more);
        OrderAppend(head, Course(mode, frame, env, items[1..], id, more));
      }
    }
  }

  lemma OrderPrefix(full: seq<Effect>, done: seq<Effect>)
    requires done <= full && StoredFirst(full) && Accounted(full)
    ensures StoredFirst(done) && Accounted(done)
  {
    forall j, e | 0 <= j < |done| && Earlier(full, j, e) ensures Earlier(done, j, e) {
      var i :| 0 <= i < j && full[i] == e;
      assert done[i] == e;
    }
  }

  lemma DoneMeansRecorded(done: seq<Effect>)
    requires Accounted(done) && Done in Kinds(done)
    ensures FinalizationReturned(true) in done && CallFinalization in done && LowerFlag in done
  {
    var i :| 0 <= i < |Kinds(done)| && Kinds(done)[i] == Done;
    var j :| 0 <= j < |done| && done[j] == Log(done)[i];
    assert Earlier(done, j, FinalizationReturned(true));
    var k :| 0 <= k < j && done[k] == FinalizationReturned(true);
    assert Earlier(done, k, CallFinalization);
    var m :| 0 <= m < k && done[m] == CallFinalization;
    assert Earlier(done, m, LowerFlag);
  }

  /** In every stream, cut anywhere: stored before yielded, and no usage or done without a recorded finalization. */
  lemma EffectsInOrder(mode: Mode, frame: Framer, env: Env, items: seq<StreamItem>, done: seq<Effect>)
    requires done <= FullCourse(mode, frame, env, items)
    ensures StoredFirst(done) && Accounted(done)
    ensures Done in Kinds(done) ==> FinalizationReturned(true) in done && CallFinalization in done && LowerFlag in done
  {
    EmitOrder(frame, Start, "", 1);
    CourseOrder(mode, frame, env, items, 2, false);
    OrderAppend(Emit(frame, Start, "", 1), Course(mode, frame, env, items, 2, false));
    OrderPrefix(FullCourse(mode, frame, env, items), done);
    if Done in Kinds(done) {
      DoneMeansRecorded(done);
    }
  }
}
