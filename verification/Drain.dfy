/** Following an installer: a reader, a watcher with a deadline, and one consumer of both. */
module Drain {
  import opened Rows

  /** How the watcher settles. */
  datatype Watcher = Exited(code: int) | TimedOut

  /** What one wait of the consumer finds. `Settled`: the watcher is done; `lost` tells whether a queue item came in
      with it, and `moves` what happens to the items still arriving while the queue is emptied. */
  datatype Turn = Item | Settled(lost: bool, moves: seq<Move>)

  datatype Move = Take | Steal

  datatype Event = Line(text: string) | Terminal(completed: bool, exitCode: int, text: string)

  function TerminalOf(w: Watcher, timeoutText: string): Event {
    match w
    case Exited(code) => Terminal(code == 0, code, "")
    case TimedOut => Terminal(false, -1, timeoutText)
  }

  function Texts(events: seq<Event>): seq<string> {
    if events == [] then []
    else Texts(events[..|events| - 1]) + match events[|events| - 1] case Line(t) => [t] case _ => []
  }

  lemma TextsPush(events: seq<Event>, e: Event)
    ensures Texts(events + [e]) == Texts(events) + match e case Line(t) => [t] case _ => []
  {
    assert (events + [e])[..|events|] == events;
  }

  /** `a` is `b` with some elements left out. */
  ghost predicate Within(a: seq<string>, b: seq<string>) {
    if a == [] then true
    else if b == [] then false
    else Within(a, b[..|b| - 1]) || (a[|a| - 1] == b[|b| - 1] && Within(a[..|a| - 1], b[..|b| - 1]))
  }

  lemma WithinPush(a: seq<string>, b: seq<string>, x: string)
    requires Within(a, b)
    ensures Within(a, b + [x]) && Within(a + [x], b + [x])
  {
    assert (b + [x])[..|b|] == b && (a + [x])[..|a|] == a;
  }

  lemma {:induction false} WithinSelf(a: seq<string>)
    ensures Within(a, a)
  {
    if a != [] {
      WithinSelf(a[..|a| - 1]);
    }
  }

  lemma {:induction false} WithinLonger(a: seq<string>, b: seq<string>, n: nat)
    requires n <= |b| && Within(a, b[..n])
    ensures Within(a, b)
    decreases |b| - n
  {
    if n < |b| {
      assert b[..n + 1][..n] == b[..n];
      WithinLonger(a, b, n + 1);
    } else {
      assert b[..n] == b;
    }
  }

  /** No terminal event so far, and the lines emitted are among the first `pos` lines, in order. */
  ghost predicate Following(lines: seq<string>, out: seq<Event>, pos: nat) {
    && pos <= |lines|
    && (forall i :: 0 <= i < |out| ==> out[i].Line?)
    && Within(Texts(out), lines[..pos])
  }

  lemma FollowOn(lines: seq<string>, out: seq<Event>, pos: nat)
    requires Following(lines, out, pos) && pos < |lines|
    ensures Following(lines, out, pos + 1) && Following(lines, out + [Line(lines[pos])], pos + 1)
  {
    assert lines[..pos + 1] == lines[..pos] + [lines[pos]];
    WithinPush(Texts(out), lines[..pos], lines[pos]);
    TextsPush(out, Line(lines[pos]));
  }

  function NotEmpty(): string -> bool {
    (line: string) => line != ""
  }

  function Least(a: nat, b: nat): nat {
    if a < b then a else b
  }

  predicate AllTaken(moves: seq<Move>) {
    forall move :: move in moves ==> move.Take?
  }

  /** What the consumer gets of the lines in the queue: those it takes itself, but no empty ones. */
  function Received(rest: seq<string>, moves: seq<Move>): seq<string> {
    if rest == [] || moves == [] then []
    else (if moves[0].Take? && rest[0] != "" then [rest[0]] else []) + Received(rest[1..], moves[1..])
  }

  /** If nobody else takes from the queue, it gets all non-empty lines that have arrived. */
  lemma {:induction false} ReceivedAll(rest: seq<string>, moves: seq<Move>)
    requires AllTaken(moves)
    ensures Received(rest, moves) == Where(rest[..Least(|rest|, |moves|)], NotEmpty())
  {
    if rest != [] && moves != [] {
      ReceivedAll(rest[1..], moves[1..]);
      assert moves[0] in moves;
      var n := Least(|rest|, |moves|);
      assert rest[..n][1..] == rest[1..][..n - 1];
    }
  }

  /** The rest of the queue will complete what has been promised. */
  ghost predicate Emptying(lines: seq<string>, promised: seq<string>, out: seq<Event>, at: nat, moves: seq<Move>) {
    Following(lines, out, at) && Texts(out) + Received(lines[at..], moves) == promised
  }

  lemma ReceivedCons(line: string, tail: seq<string>, move: Move, more: seq<Move>)
    ensures Received([line] + tail, [move] + more)
         == (if move.Take? && line != "" then [line] else []) + Received(tail, more)
  {
    assert ([line] + tail)[1..] == tail && ([move] + more)[1..] == more;
  }

  lemma TextsGrow(out: seq<Event>, line: string, emit: bool, rest: seq<string>)
    ensures Texts(if emit then out + [Line(line)] else out) + rest
         == Texts(out) + ((if emit then [line] else []) + rest)
  {
    TextsPush(out, Line(line));
    assert [] + rest == rest;
  }

  lemma EmptyOne(lines: seq<string>, promised: seq<string>, out: seq<Event>, at: nat, moves: seq<Move>)
    requires moves != [] && at < |lines| && Emptying(lines, promised, out, at, moves)
    ensures var emit := moves[0] == Take && lines[at] != "";
            Emptying(lines, promised, if emit then out + [Line(lines[at])] else out, at + 1, moves[1..])
  {
    var tail, more := lines[at + 1..], moves[1..];
    FollowOn(lines, out, at);
    assert lines[at..] == [lines[at]] + tail && moves == [moves[0]] + more;
    ReceivedCons(lines[at], tail, moves[0], more);
    TextsGrow(out, lines[at], moves[0] == Take && lines[at] != "", Received(tail, more));
  }

  /** Once the watcher is done: what is still in the queue, empty lines and the end marker dropped. */
  method EmptyQueue(lines: seq<string>, out0: seq<Event>, pos0: nat, moves: seq<Move>) returns (out: seq<Event>)
    requires Following(lines, out0, pos0)
    ensures Following(lines, out, pos0 + Least(|lines| - pos0, |moves|))
    ensures Texts(out) == Texts(out0) + Received(lines[pos0..], moves)
  {
    out := out0;
    ghost var promised := Texts(out0) + Received(lines[pos0..], moves);
    var at: nat := pos0;
    var left := moves;
    while left != [] && at < |lines|
      invariant pos0 <= at <= |lines| && |left| == |moves| - (at - pos0) && Emptying(lines, promised, out, at, left)
      decreases |left|
    {
      EmptyOne(lines, promised, out, at, left);
      if left[0] == Take && lines[at] != "" {
        out := out + [Line(lines[at])];
      }
      at := at + 1;
      left := left[1..];
    }
    assert Received(lines[at..], left) == [] && Texts(out) + [] == Texts(out);
  }

  /** The first `k` waits all found a queue item. */
  ghost predicate ItemsBefore(turns: seq<Turn>, k: nat) {
    k <= |turns| && forall i :: 0 <= i < k ==> turns[i] == Item
  }

  /** The first wait that finds the watcher done is wait number `k`; the end marker was not consumed before. */
  ghost predicate SettlesAt(lines: seq<string>, turns: seq<Turn>, k: nat) {
    k < |turns| && k <= |lines| && ItemsBefore(turns, k) && turns[k].Settled?
  }

  lemma SettlesOnce(lines: seq<string>, turns: seq<Turn>, j: nat, k: nat)
    requires SettlesAt(lines, turns, j) && SettlesAt(lines, turns, k)
    ensures j == k && !ItemsBefore(turns, |lines| + 1)
  {
    assert turns[j] != Item && turns[k] != Item;
  }

  lemma NeverSettles(lines: seq<string>, turns: seq<Turn>, n: nat)
    requires ItemsBefore(turns, n) && (n == |turns| || n > |lines|)
    ensures forall k: nat :: !SettlesAt(lines, turns, k)
  {
  }

  /** Lines among those written, in order, and then exactly one terminal event, which tells what the watcher saw. */
  ghost predicate Report(lines: seq<string>, events: seq<Event>, last: Event) {
    && events != []
    && Within(Texts(events), lines)
    && events[|events| - 1] == last
    && last.Terminal?
    && forall i :: 0 <= i < |events| - 1 ==> events[i].Line?
  }

  lemma Finish(lines: seq<string>, out: seq<Event>, pos: nat, last: Event)
    requires Following(lines, out, pos) && last.Terminal?
    ensures Report(lines, out + [last], last) && Texts(out + [last]) == Texts(out)
  {
    WithinLonger(Texts(out), lines, pos);
    TextsPush(out, last);
    assert Texts(out) + [] == Texts(out);
  }

  /** What comes out when the watcher is seen to be done after `pos` lines: those lines, and what is received of the
      rest, less the one that came in unnoticed with the watcher. */
  ghost predicate SettlesWith(lines: seq<string>, events: seq<Event>, turn: Turn, pos: nat) {
    && pos <= |lines| && turn.Settled?
    && var from := if turn.lost && pos < |lines| then pos + 1 else pos;
       Texts(events) == lines[..pos] + Received(lines[from..], turn.moves)
  }

  /** Nothing came in unnoticed and nobody else took anything: every non-empty line that had arrived came out. */
  lemma NothingLost(lines: seq<string>, events: seq<Event>, turn: Turn, pos: nat)
    requires SettlesWith(lines, events, turn, pos) && !turn.lost && AllTaken(turn.moves)
    ensures var arrived := lines[pos..][..Least(|lines| - pos, |turn.moves|)];
            Texts(events) == lines[..pos] + Where(arrived, NotEmpty())
  {
    ReceivedAll(lines[pos..], turn.moves);
  }

  /** The consumer finds the watcher done after `pos` lines. */
  method Settle(lines: seq<string>, out: seq<Event>, pos: nat, turn: Turn, last: Event) returns (events: seq<Event>)
    requires Following(lines, out, pos) && Texts(out) == lines[..pos] && turn.Settled? && last.Terminal?
    ensures Report(lines, events, last)
    ensures SettlesWith(lines, events, turn, pos)
  {
    var start: nat := pos;
    if turn.lost && pos < |lines| {
      FollowOn(lines, out, pos);
      start := pos + 1;
    }
    events := EmptyQueue(lines, out, start, turn.moves);
    Finish(lines, events, start + Least(|lines| - start, |turn.moves|), last);
    events := events + [last];
  }

  /** The consumer has taken the first `pos` lines, each by a wait of its own. */
  ghost predicate Caught(lines: seq<string>, turns: seq<Turn>, events: seq<Event>, pos: nat) {
    ItemsBefore(turns, pos) && Following(lines, events, pos) && Texts(events) == lines[..pos]
  }

  lemma CatchOne(lines: seq<string>, turns: seq<Turn>, events: seq<Event>, pos: nat)
    requires Caught(lines, turns, events, pos) && pos < |lines| && pos < |turns| && turns[pos] == Item
    ensures Caught(lines, turns, events + [Line(lines[pos])], pos + 1)
  {
    FollowOn(lines, events, pos);
    TextsPush(events, Line(lines[pos]));
  }

  lemma OnlySettling(lines: seq<string>, turns: seq<Turn>, events: seq<Event>, j: nat)
    requires SettlesAt(lines, turns, j) && SettlesWith(lines, events, turns[j], j)
    ensures exists k: nat :: SettlesAt(lines, turns, k)
    ensures forall k: nat :: SettlesAt(lines, turns, k) ==> SettlesWith(lines, events, turns[k], k)
    ensures !ItemsBefore(turns, |lines| + 1)
  {
    forall k: nat | SettlesAt(lines, turns, k) ensures k == j {
      SettlesOnce(lines, turns, j, k);
    }
    SettlesOnce(lines, turns, j, j);
  }

  lemma EndOfQueue(lines: seq<string>, turns: seq<Turn>, events: seq<Event>, last: Event)
    requires Caught(lines, turns, events, |lines|) && |lines| < |turns| && turns[|lines|] == Item && last.Terminal?
    ensures ItemsBefore(turns, |lines| + 1) && Report(lines, events + [last], last) && Texts(events + [last]) == lines
    ensures forall k: nat :: !SettlesAt(lines, turns, k)
  {
    Finish(lines, events, |lines|, last);
    NeverSettles(lines, turns, |lines| + 1);
  }

  /** `lines` are those the reader puts into the queue before its end marker. `finished` is false when the schedule
      runs out first; `sawEnd` tells that the end marker was consumed before the watcher was seen to be done. */
  method DrainSubprocess(lines: seq<string>, watcher: Watcher, timeoutText: string, turns: seq<Turn>)
    returns (events: seq<Event>, finished: bool, sawEnd: bool)
    ensures finished ==> Report(lines, events, TerminalOf(watcher, timeoutText))
    ensures sawEnd <==> ItemsBefore(turns, |lines| + 1)
    ensures sawEnd ==> finished && Texts(events) == lines
    ensures finished && !sawEnd <==> exists k: nat :: SettlesAt(lines, turns, k)
    ensures forall k: nat :: SettlesAt(lines, turns, k) ==> SettlesWith(lines, events, turns[k], k)
    ensures !finished ==> |turns| <= |lines| && Caught(lines, turns, events, |turns|)
  {
    var last := TerminalOf(watcher, timeoutText);
    events := [];
    var pos: nat := 0;
    while pos < |turns|
      invariant pos <= |turns| && Caught(lines, turns, events, pos)
    {
      if turns[pos].Settled? {
        assert SettlesAt(lines, turns, pos);
        events := Settle(lines, events, pos, turns[pos], last);
        OnlySettling(lines, turns, events, pos);
        return events, true, false;
      }
      if pos == |lines| {
        EndOfQueue(lines, turns, events, last);
        events := events + [last];
        return events, true, true;
      }
      CatchOne(lines, turns, events, pos);
      events := events + [Line(lines[pos])];
      pos := pos + 1;
    }
    NeverSettles(lines, turns, pos);
    return events, false, false;
  }
}
