/** The registry of running harness processes, and how a user's cancellation finds one. */
module Registry {
  import opened Rows
  import opened CancelProtocol
  import Identity
  import Text

  function OtherId(id: string): string -> bool {
    (other: string) => other != id
  }

  /** Ids in the order in which they were registered; a handle replaced under its id keeps its place. */
  function OrderNext(order: seq<string>, s: Handles, step: Step): seq<string> {
    match step
    case DoRegister(id, _) => if id in s.pending || id in order then order else order + [id]
    case DoCancel(id) => Where(order, OtherId(id))
    case DoCleanup(id) => Where(order, OtherId(id))
    case DoSettle(_) => order
    case DoClear => []
  }

  /** `id` is the first of the ids with the prefix. */
  predicate FirstWith(order: seq<string>, prefix: string, id: string) {
    exists i :: 0 <= i < |order| && order[i] == id && prefix <= id && forall j :: 0 <= j < i ==> !(prefix <= order[j])
  }

  predicate NoneWith(order: seq<string>, prefix: string) {
    forall id :: id in order ==> !(prefix <= id)
  }

  /** The ids that cancelling a message of a conversation may ask for. */
  predicate MayCancel(conversation: int, message: string, id: string) {
    id in Candidates(conversation, message) || Identity.ChatPrefix(conversation) <= id
  }

  function Candidates(conversation: int, message: string): seq<string> {
    [Identity.ChatRequestId(conversation, message), message, "chat:" + message]
  }

  /** Every step is one of other tasks, or a cancellation that the message may ask for. */
  predicate OwnOrOthers(log: seq<Step>, gaps: seq<seq<Step>>, conversation: int, message: string) {
    forall s :: s in log ==>
      (exists g :: g in gaps && s in g) || (s.DoCancel? && MayCancel(conversation, message, s.cid))
  }

  /** No other task takes a step. */
  predicate Undisturbed(gaps: seq<seq<Step>>) {
    forall i :: 0 <= i < |gaps| ==> gaps[i] == []
  }

  function FirstRegistered(ids: seq<string>, live: map<string, int>): Option<string> {
    if ids == [] then None else if ids[0] in live then Some(ids[0]) else FirstRegistered(ids[1..], live)
  }

  lemma {:induction false} FirstIsRegistered(ids: seq<string>, live: map<string, int>)
    ensures FirstRegistered(ids, live) == None <==> forall id :: id in ids ==> id !in live
    ensures FirstRegistered(ids, live).Some? ==>
              FirstRegistered(ids, live).value in ids && FirstRegistered(ids, live).value in live
  {
    if ids != [] {
      FirstIsRegistered(ids[1..], live);
    }
  }

  lemma FirstStep(ids: seq<string>, i: nat, live: map<string, int>)
    requires i < |ids|
    ensures FirstRegistered(ids[i..], live)
         == if ids[i] in live then Some(ids[i]) else FirstRegistered(ids[i + 1..], live)
  {
    assert ids[i..][1..] == ids[i + 1..];
  }

  lemma CandidatesInOrder(live: map<string, int>, conversation: int, message: string)
    ensures var named := "chat:" + Text.Dec(conversation) + ":" + message;
            FirstRegistered(Candidates(conversation, message), live) ==
              if named in live then Some(named)
              else if message in live then Some(message)
              else if "chat:" + message in live then Some("chat:" + message)
              else None
  {
    var ids := Candidates(conversation, message);
    FirstStep(ids, 0, live);
    FirstStep(ids, 1, live);
    FirstStep(ids, 2, live);
    assert ids[0..] == ids && ids[3..] == [];
  }

  /** No registered id is within the message's reach. */
  predicate NothingToCancel(live: map<string, int>, conversation: int, message: string) {
    forall id :: id in live ==> !MayCancel(conversation, message, id)
  }

  lemma CandidatesAndPrefix(live: map<string, int>, conversation: int, message: string)
    ensures NothingToCancel(live, conversation, message)
       <==> && FirstRegistered(Candidates(conversation, message), live) == None
            && forall id :: id in live ==> !(Identity.ChatPrefix(conversation) <= id)
  {
    FirstIsRegistered(Candidates(conversation, message), live);
  }

  class ProcessRegistry {
    var live: map<string, int>
    var order: seq<string>
    var pending: set<string>

    ghost function View(): Handles
      reads this
    {
      Handles(live, pending)
    }

    /** The insertion order of the map. */
    ghost predicate Valid()
      reads this
    {
      forall id :: id in order <==> id in live
    }

    constructor ()
      ensures Valid() && View() == Handles(map[], {}) && order == []
    {
      live := map[];
      order := [];
      pending := {};
    }

    method Register(id: string, handle: int, running: bool) returns (killed: bool)
      requires Valid()
      modifies this
      ensures Valid() && order == OrderNext(old(order), old(View()), DoRegister(id, handle))
      ensures View() == Next(old(View()), DoRegister(id, handle)).0
      ensures killed <==> running && Next(old(View()), DoRegister(id, handle)).1 == Killed
    {
      if id in pending {
        pending := pending - {id};
        return running;
      }
      if id !in live {
        order := order + [id];
      }
      live := live[id := handle];
      killed := false;
    }

    method Cancel(id: string, running: bool) returns (found: bool, killed: Option<int>)
      requires Valid()
      modifies this
      ensures Valid() && order == OrderNext(old(order), old(View()), DoCancel(id))
      ensures View() == Next(old(View()), DoCancel(id)).0
      ensures found <==> Next(old(View()), DoCancel(id)).1 != Remembered
      ensures killed == if found && running then Some(old(live)[id]) else None
    {
      WhereAllIfAbsent(order, id);
      if id !in live {
        pending := pending + {id};
        return false, None;
      }
      var handle := live[id];
      live := live - {id};
      order := Where(order, OtherId(id));
      return true, if running then Some(handle) else None;
    }

    method Cleanup(id: string)
      requires Valid()
      modifies this
      ensures Valid() && order == OrderNext(old(order), old(View()), DoCleanup(id))
      ensures View() == Next(old(View()), DoCleanup(id)).0
    {
      live := live - {id};
      order := Where(order, OtherId(id));
    }

    /** The first registered id that starts with the prefix, in insertion order. */
    method FindByPrefix(prefix: string) returns (r: Option<string>)
      requires Valid()
      ensures r.Some? ==> FirstWith(order, prefix, r.value) && r.value in live
      ensures r == None <==> forall id :: id in live ==> !(prefix <= id)
    {
      var i := 0;
      while i < |order|
        invariant 0 <= i <= |order|
        invariant forall j :: 0 <= j < i ==> !(prefix <= order[j])
      {
        if prefix <= order[i] {
          return Some(order[i]);
        }
        i := i + 1;
      }
      r := None;
    }

    /** Steps of other tasks. */
    method Others(steps: seq<Step>)
      requires Valid()
      modifies this
      ensures Valid() && View() == Play(old(View()), steps)
    {
      var i := 0;
      assert steps[..0] == [];
      while i < |steps|
        invariant 0 <= i <= |steps| && Valid() && View() == Play(old(View()), steps[..i])
      {
        PlayPush(old(View()), steps[..i], steps[i]);
        assert steps[..i + 1] == steps[..i] + [steps[i]];
        Take(steps[i]);
        i := i + 1;
      }
      assert steps[..i] == steps;
    }

    method Take(step: Step)
      requires Valid()
      modifies this
      ensures Valid() && View() == Next(old(View()), step).0
    {
      match step {
        case DoRegister(id, handle) => var _ := Register(id, handle, true);
        case DoCancel(id) => var _, _ := Cancel(id, true);
        case DoCleanup(id) => Cleanup(id);
        case DoSettle(id) => pending := pending - {id};
        case DoClear => live, order, pending := map[], [], {};
      }
    }

    /** The search, whatever other tasks do next, and the cancellation: the id found is cancelled if it is still
        registered, and marked otherwise. */
    method CancelByPrefix(prefix: string, running: bool, between: seq<Step>)
      returns (r: Option<string>, ghost target: Option<string>)
      requires Valid()
      modifies this
      ensures Valid()
      ensures target.Some? ==> FirstWith(old(order), prefix, target.value) && target.value in old(live)
      ensures target == None ==> NoneWith(old(order), prefix) && r == None && View() == old(View())
      ensures target.Some? ==>
                && View() == Next(Play(old(View()), between), DoCancel(target.value)).0
                && r == (if target.value in Play(old(View()), between).live then target else None)
                && (r == None ==> target.value in pending)
    {
      r := FindByPrefix(prefix);
      target := r;
      if r.Some? {
        Others(between);
        var found, killed := Cancel(r.value, running);
        if !found {
          r := None;
        }
      }
    }

    /** One id: asked for, and cancelled if it is registered, with steps of other tasks before either. */
    method TryCancel(id: string, running: bool, first: seq<Step>, second: seq<Step>)
      returns (found: bool, ghost log: seq<Step>)
      requires Valid()
      modifies this
      ensures Valid() && View() == Play(old(View()), log)
      ensures found ==> log == first + second + [DoCancel(id)]
      ensures log == first || log == first + second + [DoCancel(id)]
      ensures found ==> id !in live
      ensures first == [] && second == [] ==>
                (found <==> id in old(live)) && log == if found then [DoCancel(id)] else []
    {
      Others(first);
      log := first;
      found := id in live;
      if found {
        Others(second);
        PlayAppend(old(View()), first, second);
        PlayPush(old(View()), first + second, DoCancel(id));
        var killed;
        found, killed := Cancel(id, running);
        log := first + second + [DoCancel(id)];
      }
    }

    /** The prefix, after steps of other tasks. */
    method TryPrefix(prefix: string, running: bool, first: seq<Step>, second: seq<Step>)
      returns (r: Option<string>, ghost log: seq<Step>)
      requires Valid()
      modifies this
      ensures Valid() && View() == Play(old(View()), log)
      ensures log == first || exists id :: prefix <= id && log == first + second + [DoCancel(id)]
      ensures r.Some? ==> prefix <= r.value && r.value !in live && log == first + second + [DoCancel(r.value)]
      ensures first == [] && second == [] ==>
                && (r == None <==> forall id :: id in old(live) ==> !(prefix <= id))
                && (r.Some? ==> r.value in old(live))
                && log == if r.Some? then [DoCancel(r.value)] else []
    {
      Others(first);
      log := first;
      ghost var target;
      r, target := CancelByPrefix(prefix, running, second);
      if target.Some? {
        PlayAppend(old(View()), first, second);
        PlayPush(old(View()), first + second, DoCancel(target.value));
        log := first + second + [DoCancel(target.value)];
      }
    }

    /** The next id, with everything that happened before in `past`. */
    method TryNext(id: string, running: bool, conversation: int, message: string, gaps: seq<seq<Step>>, k: nat,
                   ghost start: Handles, ghost past: seq<Step>) returns (found: bool, ghost log: seq<Step>)
      requires Valid() && View() == Play(start, past) && k + 1 < |gaps|
      requires OwnOrOthers(past, gaps, conversation, message) && MayCancel(conversation, message, id)
      modifies this
      ensures Valid() && View() == Play(start, log) && OwnOrOthers(log, gaps, conversation, message)
      ensures found ==> EndsInCancel(log, id) && id !in live
      ensures gaps[k] == [] && gaps[k + 1] == [] && past == [] ==>
                (found <==> id in old(live)) && log == if found then [DoCancel(id)] else []
    {
      ghost var more;
      found, more := TryCancel(id, running, gaps[k], gaps[k + 1]);
      LogGrows(start, past, more, gaps, k, conversation, message, id);
      log := past + more;
    }

    /** Ids tried in turn until one is cancelled. */
    method TryCandidates(conversation: int, message: string, running: bool, gaps: seq<seq<Step>>)
      returns (r: Option<string>, ghost log: seq<Step>)
      requires Valid() && |gaps| == 8
      modifies this
      ensures Valid() && View() == Play(old(View()), log)
      ensures OwnOrOthers(log, gaps, conversation, message)
      ensures r.Some? ==> EndsInCancel(log, r.value) && MayCancel(conversation, message, r.value) && r.value !in live
      ensures Undisturbed(gaps) ==>
                && r == FirstRegistered(Candidates(conversation, message), old(live))
                && log == if r.Some? then [DoCancel(r.value)] else []
    {
      var candidates := Candidates(conversation, message);
      log := [];
      var i := 0;
      while i < |candidates|
        invariant 0 <= i <= 3 && Valid() && View() == Play(old(View()), log)
        invariant OwnOrOthers(log, gaps, conversation, message)
        invariant Undisturbed(gaps) ==>
                    log == [] && FirstRegistered(candidates, old(live)) == FirstRegistered(candidates[i..], old(live))
      {
        FirstStep(candidates, i, old(live));
        assert Undisturbed(gaps) ==> live == old(View()).live && gaps[2 * i] == [] && gaps[2 * i + 1] == [];
        var found;
        found, log := TryNext(candidates[i], running, conversation, message, gaps, 2 * i, old(View()), log);
        if found {
          return Some(candidates[i]), log;
        }
        i := i + 1;
      }
      r := None;
    }

    /** The conversation's prefix, with everything that happened before in `past`. */
    method PrefixNext(running: bool, conversation: int, message: string, gaps: seq<seq<Step>>, k: nat,
                      ghost start: Handles, ghost past: seq<Step>) returns (r: Option<string>, ghost log: seq<Step>)
      requires Valid() && View() == Play(start, past) && k + 1 < |gaps|
      requires OwnOrOthers(past, gaps, conversation, message)
      modifies this
      ensures Valid() && View() == Play(start, log) && OwnOrOthers(log, gaps, conversation, message)
      ensures r.Some? ==> EndsInCancel(log, r.value) && MayCancel(conversation, message, r.value) && r.value !in live
      ensures gaps[k] == [] && gaps[k + 1] == [] && past == [] ==>
                && (r == None <==> forall id :: id in old(live) ==> !(Identity.ChatPrefix(conversation) <= id))
                && (r.Some? ==> r.value in old(live))
                && log == if r.Some? then [DoCancel(r.value)] else []
    {
      ghost var more;
      r, more := TryPrefix(Identity.ChatPrefix(conversation), running, gaps[k], gaps[k + 1]);
      ghost var id := if more == gaps[k] then message else more[|more| - 1].cid;
      LogGrows(start, past, more, gaps, k, conversation, message, id);
      log := past + more;
    }

    /** Cancelling one message: three ids are tried in turn, then the conversation's prefix, with steps of other tasks
        before every access to the registry. `log` is everything that happened. */
    method CancelMessage(conversation: int, message: string, running: bool, gaps: seq<seq<Step>>)
      returns (r: Option<string>, ghost log: seq<Step>)
      requires Valid() && |gaps| == 8
      modifies this
      ensures Valid() && View() == Play(old(View()), log)
      ensures OwnOrOthers(log, gaps, conversation, message)
      ensures r.Some? ==> EndsInCancel(log, r.value) && MayCancel(conversation, message, r.value) && r.value !in live
      ensures Undisturbed(gaps) ==>
                var first := FirstRegistered(Candidates(conversation, message), old(live));
                && (first.Some? ==> r == first)
                && (r == None <==> NothingToCancel(old(live), conversation, message))
                && (r.Some? && first == None ==> r.value in old(live))
                && log == if r.Some? then [DoCancel(r.value)] else []
      ensures Undisturbed(gaps) ==>
                var named := "chat:" + Text.Dec(conversation) + ":" + message;
                if named in old(live) then r == Some(named)
                else if message in old(live) then r == Some(message)
                else if "chat:" + message in old(live) then r == Some("chat:" + message)
                else r == None || "chat:" + Text.Dec(conversation) + ":" <= r.value
    {
      CandidatesInOrder(live, conversation, message);
      CandidatesAndPrefix(live, conversation, message);
      r, log := TryCandidates(conversation, message, running, gaps);
      if r == None {
        r, log := PrefixNext(running, conversation, message, gaps, 6, old(View()), log);
      }
    }
  }

  predicate EndsInCancel(log: seq<Step>, id: string) {
    log != [] && log[|log| - 1] == DoCancel(id)
  }

  lemma LogGrows(start: Handles, log: seq<Step>, more: seq<Step>, gaps: seq<seq<Step>>, k: nat, conversation: int,
                 message: string, id: string)
    requires k + 1 < |gaps| && OwnOrOthers(log, gaps, conversation, message) && MayCancel(conversation, message, id)
    requires more == gaps[k] || more == gaps[k] + gaps[k + 1] + [DoCancel(id)]
    ensures OwnOrOthers(log + more, gaps, conversation, message)
    ensures Play(start, log + more) == Play(Play(start, log), more)
  {
    PlayAppend(start, log, more);
  }

  lemma WhereAllIfAbsent(order: seq<string>, id: string)
    ensures id !in order ==> Where(order, OtherId(id)) == order
  {
    if id !in order {
      WhereAll(order, OtherId(id));
    }
  }

  /** Which ids of other conversations, and which completions, cancelling a message reaches: only one that the message
      id itself spells out. */
  lemma MessageReach(conversation: int, message: string, other: int, sid: string, hex: string)
    ensures other == conversation ==> MayCancel(conversation, message, Identity.ChatRequestId(other, sid))
    ensures other != conversation ==>
              (MayCancel(conversation, message, Identity.ChatRequestId(other, sid))
               <==> message == Identity.ChatRequestId(other, sid)
                    || "chat:" + message == Identity.ChatRequestId(other, sid))
    ensures MayCancel(conversation, message, Identity.CompletionId(hex)) <==> message == Identity.CompletionId(hex)
  {
    var id := Identity.ChatRequestId(other, sid);
    Identity.PrefixSelectsOneConversation(conversation, other, sid, hex);
    if Identity.ChatRequestId(conversation, message) == id {
      assert Identity.ChatPrefix(conversation) <= id;
    }
    assert Identity.CompletionId(hex)[4] == 'c' && ("chat:" + message)[4] == ':';
    assert Identity.ChatRequestId(conversation, message)[4] == ':';
  }

  // ----- insertion order

  /** The order after any steps from an empty registry. */
  function OrderAfter(steps: seq<Step>): seq<string> {
    if steps == [] then []
    else
      var before := steps[..|steps| - 1];
      OrderNext(OrderAfter(before), Play(Handles(map[], {}), before), steps[|steps| - 1])
  }

  /** The number of the step by which the id last became registered. */
  function Since(steps: seq<Step>, id: string): nat {
    if steps == [] then 0
    else
      var before := steps[..|steps| - 1];
      var was, now := Play(Handles(map[], {}), before), Play(Handles(map[], {}), steps);
      if id !in was.live && id in now.live then |steps| else Since(before, id)
  }

  /** Later ids became registered later. */
  predicate Ascending(order: seq<string>, steps: seq<Step>) {
    forall i, j :: 0 <= i < j < |order| ==> Since(steps, order[i]) < Since(steps, order[j])
  }

  ghost predicate InOrder(order: seq<string>, steps: seq<Step>) {
    && Ascending(order, steps)
    && (forall id :: id in order ==> Since(steps, id) <= |steps|)
    && (forall id :: id in order <==> id in Play(Handles(map[], {}), steps).live)
  }

  lemma AscendingTail(order: seq<string>, steps: seq<Step>)
    requires Ascending(order, steps) && order != []
    ensures Ascending(order[1..], steps)
    ensures forall x :: x in order[1..] ==> Since(steps, order[0]) < Since(steps, x)
  {
    assert forall i :: 0 <= i < |order| - 1 ==> order[1..][i] == order[i + 1];
  }

  lemma AscendingCons(first: string, rest: seq<string>, steps: seq<Step>)
    requires Ascending(rest, steps) && forall x :: x in rest ==> Since(steps, first) < Since(steps, x)
    ensures Ascending([first] + rest, steps)
  {
  }

  /** Leaving ids out keeps the others in order. */
  lemma {:induction false} SelectedAscends(order: seq<string>, id: string, steps: seq<Step>)
    requires Ascending(order, steps)
    ensures Ascending(Where(order, OtherId(id)), steps)
  {
    if order != [] {
      AscendingTail(order, steps);
      SelectedAscends(order[1..], id, steps);
      AscendingCons(order[0], Where(order[1..], OtherId(id)), steps);
    }
  }

  lemma SinceKept(before: seq<Step>, step: Step, id: string)
    ensures var was := Play(Handles(map[], {}), before);
            Since(before + [step], id) ==
              if id !in was.live && id in Next(was, step).0.live then |before| + 1 else Since(before, id)
  {
    PlayPush(Handles(map[], {}), before, step);
    assert (before + [step])[..|before|] == before;
  }

  /** Ids that were registered before and stay so keep their order. */
  lemma AscendingKept(order: seq<string>, before: seq<Step>, step: Step)
    requires Ascending(order, before)
    requires forall id :: id in order ==> Since(before + [step], id) == Since(before, id)
    ensures Ascending(order, before + [step])
  {
    assert forall i :: 0 <= i < |order| ==> order[i] in order;
  }

  /** Ids are found in the order in which they were last registered; a replaced handle counts as the same
      registration. */
  lemma {:induction false} InsertionOrder(steps: seq<Step>)
    ensures InOrder(OrderAfter(steps), steps)
  {
    if steps != [] {
      var before, step := steps[..|steps| - 1], steps[|steps| - 1];
      InsertionOrder(before);
      assert steps == before + [step];
      OrderStep(before, step);
    }
  }

  lemma StayInOrder(order: seq<string>, kept: seq<string>, before: seq<Step>, step: Step)
    requires InOrder(order, before) && Ascending(kept, before)
    requires forall id :: id in kept ==> id in order && id in Next(Play(Handles(map[], {}), before), step).0.live
    ensures Ascending(kept, before + [step])
    ensures forall id :: id in kept ==> Since(before + [step], id) <= |before|
  {
    forall id | id in kept ensures Since(before + [step], id) == Since(before, id) {
      SinceKept(before, step, id);
    }
    AscendingKept(kept, before, step);
  }

  lemma AscendingPush(order: seq<string>, id: string, steps: seq<Step>)
    requires Ascending(order, steps) && forall x :: x in order ==> Since(steps, x) < Since(steps, id)
    ensures Ascending(order + [id], steps)
  {
    assert forall i :: 0 <= i < |order| ==> order[i] in order;
  }

  lemma OrderStep(before: seq<Step>, step: Step)
    requires InOrder(OrderAfter(before), before)
    ensures InOrder(OrderNext(OrderAfter(before), Play(Handles(map[], {}), before), step), before + [step])
  {
    var order, was := OrderAfter(before), Play(Handles(map[], {}), before);
    PlayPush(Handles(map[], {}), before, step);
    match step
    case DoRegister(id, h) =>
      StayInOrder(order, order, before, step);
      if id !in was.pending && id !in order {
        SinceKept(before, step, id);
        AscendingPush(order, id, before + [step]);
      }
    case DoCancel(id) =>
      SelectedAscends(order, id, before);
      StayInOrder(order, Where(order, OtherId(id)), before, step);
    case DoCleanup(id) =>
      SelectedAscends(order, id, before);
      StayInOrder(order, Where(order, OtherId(id)), before, step);
    case DoSettle(id) => StayInOrder(order, order, before, step);
    case DoClear =>
  }
}
