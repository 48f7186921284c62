/** The heartbeat pump between a harness and a connected client. */
module Pump {
  import opened Rows

  datatype ToolCall = ToolCall(wellFormed: bool, id: string, body: string)

  datatype Item = Item(text: string, tool: Option<ToolCall>)

  datatype StreamItem = Keepalive | Cancelled | Passed(item: Item)

  /** How the harness ends after its last item. */
  datatype HarnessEnd = Stops | Raises(error: string)

  /** One turn of the loop. `Gone`: the client is found gone at its top, and `ready` tells whether the outstanding
      request, if any, has its result by then. `Waits`: no result before the heartbeat. `Arrives`: the result is in,
      and `goneAfter` tells whether the client is found gone right after. */
  datatype Turn = Gone(ready: bool) | Waits | Arrives(goneAfter: bool)

  datatype Status = Running | Disconnected | Ended | Failed(error: string)

  /** A request to the harness whose result was not passed on. An unfinished one was cancelled. */
  datatype Dropped = Dropped(request: nat, finished: bool)

  function ItemsOf(out: seq<StreamItem>): seq<Item> {
    if out == [] then []
    else ItemsOf(out[..|out| - 1]) + match out[|out| - 1] case Passed(x) => [x] case _ => []
  }

  function IsKeepalive(): StreamItem -> bool {
    (s: StreamItem) => s.Keepalive?
  }

  function TimedOut(): Turn -> bool {
    (t: Turn) => t.Waits?
  }

  function Answered(): Turn -> bool {
    (t: Turn) => t.Arrives?
  }

  /** `used` turns were taken; `started` requests were made, numbered from zero; `running` are those still going on when
      the pump has ended; `cancels` counts the cancellations asked of the process registry. */
  datatype Report = Report(
    out: seq<StreamItem>, status: Status, used: nat, started: nat, dropped: Option<Dropped>, running: set<nat>,
    cancels: nat)

  /** On turn `k` the request outstanding at its top, if any, was made on an earlier turn that timed out. */
  predicate Outstanding(turns: seq<Turn>, k: nat) {
    0 < k <= |turns| && turns[k - 1].Waits?
  }

  /** Which request is lost when the pump ends after `passed` items, other than by the end of the harness. */
  function Loss(turns: seq<Turn>, used: nat, passed: nat, status: Status, readyAtClose: bool): Option<Dropped>
    requires used <= |turns|
  {
    match status
    case Running => if Outstanding(turns, used) then Some(Dropped(passed, readyAtClose)) else None
    case Disconnected =>
      if used == 0 then None
      else if !turns[used - 1].Gone? then Some(Dropped(passed, true))
      else if Outstanding(turns, used - 1) then Some(Dropped(passed, turns[used - 1].ready))
      else None
    case _ => None
  }

  /** The client is found gone on turn `k`, when `passed` items have been passed on. */
  predicate SeenGone(items: seq<Item>, turns: seq<Turn>, k: nat, passed: nat) {
    k < |turns| && (turns[k].Gone? || (turns[k] == Arrives(true) && passed < |items|))
  }

  ghost predicate Sound(items: seq<Item>, ending: HarnessEnd, turns: seq<Turn>, readyAtClose: bool, r: Report) {
    var passed := |ItemsOf(r.out)|;
    && r.used <= |turns| && passed <= |items| && (r.status != Running ==> r.used > 0)
    // nothing is duplicated, reordered or invented
    && ItemsOf(r.out) == items[..passed]
    // one keepalive per wait that timed out
    && Count(r.out, IsKeepalive()) == Count(turns[..r.used], TimedOut())
    // every answer is an item passed on, save one that ends the pump: the end of the harness, or an item after which
    // the client is found gone
    && Count(turns[..r.used], Answered())
       == passed + (if r.status != Running && turns[r.used - 1].Arrives? then 1 else 0)
    && (r.status == Ended || r.status.Failed? <==> Count(turns[..r.used], Answered()) > |items|)
    // a disconnect, and nothing else, ends the output with one cancellation and asks for one kill
    && (r.status == Disconnected <==> r.out != [] && r.out[|r.out| - 1] == Cancelled)
    && (forall i :: 0 <= i < |r.out| - 1 ==> r.out[i] != Cancelled)
    && r.cancels == (if r.status == Disconnected then 1 else 0)
    && (r.status == Disconnected <==> r.used > 0 && SeenGone(items, turns, r.used - 1, passed))
    && (forall i :: 0 <= i < r.used - 1 ==> !turns[i].Gone? && turns[i] != Arrives(true))
    // at most one request is made and not passed on, it is the next one, and it is lost exactly when it was outstanding
    && r.dropped == Loss(turns, r.used, passed, r.status, readyAtClose)
    && (r.status == Running || r.status == Disconnected ==>
          r.started == passed + if r.dropped.Some? then 1 else 0)
    // no request outlives the pump
    && r.running == {}
    // a normal end or a harness error comes after every item, as the answer to one more request
    && (r.status == Ended ==> ending == Stops && passed == |items| && r.started == passed + 1)
    && (r.status.Failed? ==> ending == Raises(r.status.error) && passed == |items| && r.started == passed + 1)
    && (r.status == Running ==> r.used == |turns|)
  }

  lemma PushOut(out: seq<StreamItem>, s: StreamItem)
    ensures ItemsOf(out + [s]) == ItemsOf(out) + match s case Passed(x) => [x] case _ => []
    ensures Count(out + [s], IsKeepalive()) == Count(out, IsKeepalive()) + if s.Keepalive? then 1 else 0
  {
    assert (out + [s])[..|out|] == out;
    CountPush(out, s, IsKeepalive());
  }

  lemma PushTurn(turns: seq<Turn>, k: nat)
    requires k < |turns|
    ensures Count(turns[..k + 1], TimedOut()) == Count(turns[..k], TimedOut()) + if turns[k].Waits? then 1 else 0
    ensures Count(turns[..k + 1], Answered()) == Count(turns[..k], Answered()) + if turns[k].Arrives? then 1 else 0
  {
    assert turns[..k + 1] == turns[..k] + [turns[k]];
    CountPush(turns[..k], turns[k], TimedOut());
    CountPush(turns[..k], turns[k], Answered());
  }

  function RunningOf(pending: Option<nat>): set<nat> {
    if pending.Some? then {pending.value} else {}
  }

  /** Between two turns, the client connected: every item but that of the outstanding request has been passed on. */
  ghost predicate Flowing(items: seq<Item>, turns: seq<Turn>, out: seq<StreamItem>, passed: nat, k: nat) {
    && k <= |turns| && passed <= |items|
    && ItemsOf(out) == items[..passed]
    && Count(out, IsKeepalive()) == Count(turns[..k], TimedOut())
    && Count(turns[..k], Answered()) == passed
    && (forall i :: 0 <= i < |out| ==> out[i] != Cancelled)
    && (forall i :: 0 <= i < k ==> !turns[i].Gone? && turns[i] != Arrives(true))
  }

  /** The request kept across heartbeats is the next one, and the only one going on. */
  predicate Kept(turns: seq<Turn>, pending: Option<nat>, started: nat, running: set<nat>, passed: nat, k: nat) {
    && (pending.Some? <==> Outstanding(turns, k))
    && (pending.Some? ==> pending.value == passed)
    && started == passed + (if pending.Some? then 1 else 0)
    && running == RunningOf(pending)
  }

  lemma KeepaliveOn(items: seq<Item>, turns: seq<Turn>, out: seq<StreamItem>, passed: nat, k: nat)
    requires Flowing(items, turns, out, passed, k) && k < |turns| && turns[k].Waits?
    ensures Flowing(items, turns, out + [Keepalive], passed, k + 1)
  {
    PushTurn(turns, k);
    PushOut(out, Keepalive);
  }

  lemma PassOn(items: seq<Item>, turns: seq<Turn>, out: seq<StreamItem>, passed: nat, k: nat)
    requires Flowing(items, turns, out, passed, k) && k < |turns| && turns[k] == Arrives(false) && passed < |items|
    ensures Flowing(items, turns, out + [Passed(items[passed])], passed + 1, k + 1)
  {
    PushTurn(turns, k);
    PushOut(out, Passed(items[passed]));
    assert items[..passed + 1] == items[..passed] + [items[passed]];
  }

  function DroppedOf(pending: Option<nat>, ready: bool): Option<Dropped> {
    if pending.Some? then Some(Dropped(pending.value, ready)) else None
  }

  /** The client was found gone at the top of turn `k`. */
  lemma StopGone(items: seq<Item>, ending: HarnessEnd, turns: seq<Turn>, readyAtClose: bool, out: seq<StreamItem>,
                 passed: nat, k: nat, pending: Option<nat>, started: nat, running: set<nat>)
    requires Flowing(items, turns, out, passed, k) && Kept(turns, pending, started, running, passed, k)
    requires k < |turns| && turns[k].Gone?
    ensures Sound(items, ending, turns, readyAtClose,
                  Report(out + [Cancelled], Disconnected, k + 1, started, DroppedOf(pending, turns[k].ready), {}, 1))
  {
    PushTurn(turns, k);
    PushOut(out, Cancelled);
  }

  /** The client was found gone right after an item arrived on turn `k`. */
  lemma StopGoneAfter(items: seq<Item>, ending: HarnessEnd, turns: seq<Turn>, readyAtClose: bool, out: seq<StreamItem>,
                      passed: nat, k: nat)
    requires Flowing(items, turns, out, passed, k) && k < |turns| && turns[k] == Arrives(true) && passed < |items|
    ensures Sound(items, ending, turns, readyAtClose,
                  Report(out + [Cancelled], Disconnected, k + 1, passed + 1, Some(Dropped(passed, true)), {}, 1))
  {
    PushTurn(turns, k);
    PushOut(out, Cancelled);
  }

  /** The harness answered on turn `k` that there is nothing more. */
  lemma StopEnded(items: seq<Item>, ending: HarnessEnd, turns: seq<Turn>, readyAtClose: bool, out: seq<StreamItem>,
                  k: nat)
    requires Flowing(items, turns, out, |items|, k) && k < |turns| && turns[k].Arrives?
    ensures Sound(items, ending, turns, readyAtClose,
                  Report(out, if ending.Stops? then Ended else Failed(ending.error), k + 1, |items| + 1, None, {}, 0))
  {
    PushTurn(turns, k);
  }

  /** The consumer stopped asking. */
  lemma StopAsking(items: seq<Item>, ending: HarnessEnd, turns: seq<Turn>, readyAtClose: bool, out: seq<StreamItem>,
                   passed: nat, pending: Option<nat>, started: nat, running: set<nat>)
    requires Flowing(items, turns, out, passed, |turns|) && Kept(turns, pending, started, running, passed, |turns|)
    ensures Sound(items, ending, turns, readyAtClose,
                  Report(out, Running, |turns|, started, DroppedOf(pending, readyAtClose), {}, 0))
  {
    assert |turns| > 0 ==> !turns[|turns| - 1].Gone?;
  }

  /** Runs until the schedule is used up, which stands for a consumer that stops asking; `readyAtClose` then tells
      whether the outstanding request has its result. */
  method PumpHarnessStream(items: seq<Item>, ending: HarnessEnd, turns: seq<Turn>, readyAtClose: bool)
    returns (r: Report)
    ensures Sound(items, ending, turns, readyAtClose, r)
  {
    var out: seq<StreamItem> := [];
    var pending: Option<nat> := None;
    var running: set<nat> := {};
    var started, k: nat := 0, 0;
    ghost var passed: nat := 0;
    while k < |turns| && !turns[k].Gone?
      invariant Flowing(items, turns, out, passed, k) && Kept(turns, pending, started, running, passed, k)
    {
      if pending == None {
        pending := Some(started);
        running := running + {started};
        started := started + 1;
      }
      var request := pending.value;
      assert request == passed && started == passed + 1 && running == {request};
      if turns[k].Waits? {
        KeepaliveOn(items, turns, out, passed, k);
        out := out + [Keepalive];
        k := k + 1;
        continue;
      }
      running := running - {request};
      if request >= |items| || turns[k].goneAfter {
        r := LeaveAnswered(items, ending, turns, readyAtClose, out, request, started, running, k);
        return;
      }
      pending := None;
      PassOn(items, turns, out, passed, k);
      out := out + [Passed(items[request])];
      passed := passed + 1;
      k := k + 1;
    }
    r := Leave(items, ending, turns, readyAtClose, out, passed, pending, started, running, k);
  }

  /** The client was found gone at the top of turn `k`, or nobody asks any more. */
  method Leave(items: seq<Item>, ending: HarnessEnd, turns: seq<Turn>, readyAtClose: bool, out: seq<StreamItem>,
               ghost passed: nat, pending: Option<nat>, started: nat, running: set<nat>, k: nat) returns (r: Report)
    requires Flowing(items, turns, out, passed, k) && Kept(turns, pending, started, running, passed, k)
    requires k < |turns| ==> turns[k].Gone?
    ensures Sound(items, ending, turns, readyAtClose, r)
  {
    if k < |turns| {
      StopGone(items, ending, turns, readyAtClose, out, passed, k, pending, started, running);
      var dropped, left := Abandon(pending, running, turns[k].ready);
      r := Report(out + [Cancelled], Disconnected, k + 1, started, dropped, left, 1);
    } else {
      StopAsking(items, ending, turns, readyAtClose, out, passed, pending, started, running);
      var dropped, left := Abandon(pending, running, readyAtClose);
      r := Report(out, Running, k, started, dropped, left, 0);
    }
  }

  /** The request was answered on turn `k` by the end of the harness, or by an item after which the client was found
      gone. */
  method LeaveAnswered(items: seq<Item>, ending: HarnessEnd, turns: seq<Turn>, readyAtClose: bool,
                       out: seq<StreamItem>, request: nat, started: nat, running: set<nat>, k: nat) returns (r: Report)
    requires Flowing(items, turns, out, request, k) && started == request + 1 && running == {}
    requires k < |turns| && turns[k].Arrives? && (request == |items| || turns[k].goneAfter)
    ensures Sound(items, ending, turns, readyAtClose, r)
  {
    if request >= |items| {
      StopEnded(items, ending, turns, readyAtClose, out, k);
      r := Report(out, if ending.Stops? then Ended else Failed(ending.error), k + 1, started, None, running, 0);
    } else {
      StopGoneAfter(items, ending, turns, readyAtClose, out, request, k);
      r := Report(out + [Cancelled], Disconnected, k + 1, started, Some(Dropped(request, true)), running, 1);
    }
  }

  /** Leaving the loop with a request outstanding: it has finished meanwhile, or it is cancelled. */
  method Abandon(pending: Option<nat>, running: set<nat>, ready: bool)
    returns (dropped: Option<Dropped>, left: set<nat>)
    requires running == RunningOf(pending)
    ensures left == {} && dropped == DroppedOf(pending, ready)
  {
    dropped, left := None, running;
    if pending.Some? {
      // it has finished by itself, or is cancelled now
      left := left - {pending.value};
      dropped := Some(Dropped(pending.value, ready));
    }
  }
}
