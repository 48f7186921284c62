/** An install or update job: what it ends as, and what its log holds, for every sequence of adapter events. */
module JobRunner {
  import opened Rows
  import opened Drain
  import CancelProtocol

  datatype AdapterEvent = AdapterEvent(stage: string, message: string, exitCode: Option<int>)

  /** How the adapter's event stream stops: by itself, with an exception the runner catches, or with another one. */
  datatype Ending = Finishes | RaisesCaught(text: string) | RaisesOther

  predicate IsTerminal(e: AdapterEvent) {
    e.stage == "completed" || e.stage == "failed" || e.stage == "error"
  }

  predicate ReportsSuccess(e: AdapterEvent) {
    e.stage == "completed" || e.exitCode == Some(0)
  }

  predicate IsSettled(stage: string) {
    stage == "completed" || stage == "failed"
  }

  predicate OccursAt(text: string, word: string, i: nat) {
    i + |word| <= |text| && text[i..i + |word|] == word
  }

  predicate Contains(text: string, word: string) {
    exists i: nat | i <= |text| :: OccursAt(text, word, i)
  }

  /** A failure whose text already says that the job was stopped from outside. */
  predicate TellsOfCancel(e: AdapterEvent) {
    e.stage == "failed" && (Contains(e.message, "timed out") || Contains(e.message, "cancelled"))
  }

  /** The messages worth logging, in order. */
  function Messages(events: seq<AdapterEvent>): seq<string> {
    if events == [] then []
    else
      var last := events[|events| - 1];
      Messages(events[..|events| - 1]) + if last.message == "" then [] else [last.message]
  }

  /** The exit code of the last terminal event. */
  function LastExit(events: seq<AdapterEvent>): Option<int> {
    if events == [] then None
    else if IsTerminal(events[|events| - 1]) then events[|events| - 1].exitCode
    else LastExit(events[..|events| - 1])
  }

  /** The stage that the last event stands for. */
  function LastStage(events: seq<AdapterEvent>): string {
    if events == [] then "running"
    else
      var last := events[|events| - 1];
      if !IsTerminal(last) then last.stage
      else if ReportsSuccess(last) then "completed" else "failed"
  }

  ghost predicate CancelTold(events: seq<AdapterEvent>) {
    exists e :: e in events && TellsOfCancel(e)
  }

  /** A pending cancellation that no event mentions. */
  ghost predicate CancelledSilently(events: seq<AdapterEvent>, wasCancelled: bool) {
    wasCancelled && !CancelTold(events)
  }

  /** What a stream that stops by itself amounts to when no pending cancellation overrules it: success if its last
      event is a terminal one that reports success, or is not terminal and no failing exit code stands. */
  predicate Succeeds(events: seq<AdapterEvent>) {
    if events != [] && IsTerminal(events[|events| - 1]) then ReportsSuccess(events[|events| - 1])
    else LastExit(events) == None || LastExit(events) == Some(0)
  }

  lemma PushMessage(events: seq<AdapterEvent>, k: nat)
    requires k < |events|
    ensures Messages(events[..k + 1])
         == Messages(events[..k]) + if events[k].message == "" then [] else [events[k].message]
  {
    assert events[..k + 1][..k] == events[..k];
  }

  lemma PushEvent(events: seq<AdapterEvent>, k: nat)
    requires k < |events|
    ensures LastExit(events[..k + 1]) == if IsTerminal(events[k]) then events[k].exitCode else LastExit(events[..k])
    ensures LastStage(events[..k + 1]) ==
              if !IsTerminal(events[k]) then events[k].stage
              else if ReportsSuccess(events[k]) then "completed" else "failed"
    ensures CancelTold(events[..k + 1]) <==> CancelTold(events[..k]) || TellsOfCancel(events[k])
  {
    assert events[..k + 1] == events[..k] + [events[k]];
    assert events[..k + 1][..k] == events[..k];
  }

  /** The log after one more message; no log when the oldest entry is to be dropped from an empty one. */
  function Logged(logs: seq<string>, message: string, maxLogs: int): (r: Option<seq<string>>)
    ensures maxLogs > 0 && |logs| <= maxLogs && message != "" ==> r == Some(Last(logs + [message], maxLogs))
    ensures r == None <==> message != "" && |logs| >= maxLogs && logs == []
  {
    if message == "" then Some(logs)
    else if |logs| < maxLogs then Some(logs + [message])
    else if logs == [] then None
    else
      assert (logs + [message])[1..] == logs[1..] + [message];
      Some(logs[1..] + [message])
  }

  /** A log without room has not been asked to take any of the first `k` messages. */
  ghost predicate Quiet(events: seq<AdapterEvent>, k: nat, maxLogs: int) {
    k <= |events| && (maxLogs <= 0 ==> forall i :: 0 <= i < k ==> events[i].message == "")
  }

  /** A log without room meets a message. */
  ghost predicate Overflows(events: seq<AdapterEvent>, maxLogs: int) {
    maxLogs <= 0 && exists e :: e in events && e.message != ""
  }

  /** The newest messages that fit the log. */
  function Kept(events: seq<AdapterEvent>, maxLogs: int): seq<string> {
    if maxLogs > 0 then Last(Messages(events), maxLogs) else []
  }

  lemma LoggedKeepsLast(all: seq<string>, message: string, maxLogs: int)
    requires message != "" && maxLogs > 0
    ensures Logged(Last(all, maxLogs), message, maxLogs) == Some(Last(all + [message], maxLogs))
  {
    LastOfLast(all, [message], maxLogs);
  }

  lemma KeptPush(events: seq<AdapterEvent>, k: nat, maxLogs: int)
    requires k < |events|
    ensures var message := events[k].message;
            && (message == "" ==> Kept(events[..k + 1], maxLogs) == Kept(events[..k], maxLogs))
            && (message != "" && maxLogs > 0 ==>
                  Logged(Kept(events[..k], maxLogs), message, maxLogs) == Some(Kept(events[..k + 1], maxLogs)))
            && (message == "" ==> Messages(events[..k + 1]) == Messages(events[..k]))
  {
    PushMessage(events, k);
    if events[k].message == "" {
      assert Messages(events[..k]) + [] == Messages(events[..k]);
    } else if maxLogs > 0 {
      LoggedKeepsLast(Messages(events[..k]), events[k].message, maxLogs);
    }
  }

  class HarnessJob {
    var stage: string
    var logs: seq<string>
    var exitCode: Option<int>

    constructor ()
      ensures stage == "pending" && logs == [] && exitCode == None
    {
      stage := "pending";
      logs := [];
      exitCode := None;
    }

    /** The job mirrors the events handled so far. */
    ghost predicate Mirrors(events: seq<AdapterEvent>, maxLogs: int)
      reads this
    {
      && stage == LastStage(events)
      && exitCode == LastExit(events)
      && logs == Kept(events, maxLogs)
      && (maxLogs <= 0 ==> Messages(events) == [])
    }

    /** One event, and whether a cancellation has been told of by now; `broken` when the log cannot take its message,
        and then nothing is changed. */
    method HandleEvent(e: AdapterEvent, maxLogs: int, cancelTold: bool, ghost events: seq<AdapterEvent>, ghost k: nat)
      returns (broken: bool, told: bool)
      requires k < |events| && e == events[k] && Mirrors(events[..k], maxLogs)
      requires cancelTold <==> CancelTold(events[..k])
      modifies this
      ensures broken <==> maxLogs <= 0 && e.message != ""
      ensures !broken ==> Mirrors(events[..k + 1], maxLogs) && (told <==> CancelTold(events[..k + 1]))
      ensures broken ==> Mirrors(events[..k], maxLogs) && told == cancelTold
    {
      PushEvent(events, k);
      KeptPush(events, k, maxLogs);
      var log := Logged(logs, e.message, maxLogs);
      if log == None {
        return true, cancelTold;
      }
      logs := log.value;
      if IsTerminal(e) {
        stage := if ReportsSuccess(e) then "completed" else "failed";
        exitCode := e.exitCode;
      } else {
        stage := e.stage;
      }
      return false, cancelTold || TellsOfCancel(e);
    }

    /** The event loop; `broken` when it is left because the log cannot take the next message. */
    method HandleEvents(events: seq<AdapterEvent>, maxLogs: int) returns (broken: bool, handled: nat, cancelTold: bool)
      requires Mirrors([], maxLogs)
      modifies this
      ensures handled <= |events| && Mirrors(events[..handled], maxLogs)
      ensures cancelTold <==> CancelTold(events[..handled])
      ensures broken <==> handled < |events|
      ensures Quiet(events, handled, maxLogs) && (broken ==> maxLogs <= 0 && events[handled].message != "")
    {
      broken, handled, cancelTold := false, 0, false;
      while handled < |events|
        invariant handled <= |events| && Mirrors(events[..handled], maxLogs)
        invariant (cancelTold <==> CancelTold(events[..handled])) && Quiet(events, handled, maxLogs)
      {
        broken, cancelTold := HandleEvent(events[handled], maxLogs, cancelTold, events, handled);
        if broken {
          return;
        }
        handled := handled + 1;
      }
    }

    /** A stream that stopped by itself: a pending cancellation is noted, and an open stage is decided. */
    method Conclude(events: seq<AdapterEvent>, wasCancelled: bool, cancelTold: bool, maxLogs: int)
      requires Mirrors(events, maxLogs) && (cancelTold <==> CancelTold(events))
      modifies this
      ensures IsSettled(stage)
      ensures stage == "completed" <==> Succeeds(events) && !CancelledSilently(events, wasCancelled)
      ensures exitCode == if CancelledSilently(events, wasCancelled) then Some(-1) else LastExit(events)
      ensures logs == old(logs) + if CancelledSilently(events, wasCancelled) then ["cancelled by admin"] else []
    {
      if wasCancelled && !cancelTold {
        stage := "failed";
        exitCode := Some(-1);
        logs := logs + ["cancelled by admin"];
      }
      if !IsSettled(stage) {
        stage := if exitCode == None || exitCode == Some(0) then "completed" else "failed";
      }
    }

    /** Runs a fresh job over the adapter's events. `crashed` is an exception that leaves the runner, after `handled`
        events. Only a stream that stops by itself is asked for a pending cancellation; however the run ends, the job's
        process is forgotten. */
    method RunAdapter(events: seq<AdapterEvent>, ending: Ending, processes: CancelProtocol.JobProcesses, id: string,
                      maxLogs: int, hasCallback: bool) returns (callback: bool, crashed: bool, handled: nat)
      requires logs == [] && exitCode == None
      modifies this, processes
      ensures handled <= |events|
      ensures handled < |events| <==> Overflows(events, maxLogs)
      ensures crashed <==> ending.RaisesOther? || handled < |events|
      ensures crashed ==> Mirrors(events[..handled], maxLogs)
      ensures IsSettled(stage) <==> !crashed || (handled > 0 && IsTerminal(events[handled - 1]))
      ensures callback <==> !crashed && ending.Finishes? && hasCallback && stage == "completed"
      ensures processes.View() == Forgotten(old(processes.View()), id, !crashed && ending.Finishes?)
      ensures !crashed && ending.Finishes? ==>
                var silently := CancelledSilently(events, id in old(processes.cancelled));
                && (stage == "completed" <==> Succeeds(events) && !silently)
                && exitCode == (if silently then Some(-1) else LastExit(events))
                && logs == Kept(events, maxLogs) + (if silently then ["cancelled by admin"] else [])
      ensures !crashed && ending.RaisesCaught? ==>
                && stage == "failed"
                && exitCode == Some(1)
                && logs == Kept(events, maxLogs)
                           + (if |Messages(events)| < maxLogs then ["error: " + ending.text] else [])
    {
      stage := "running";
      var broken, cancelTold;
      broken, handled, cancelTold := HandleEvents(events, maxLogs);
      callback, crashed := false, broken || ending.RaisesOther?;
      assert broken ==> events[handled] in events;
      if crashed {
        SettledByLast(events, handled);
        processes.UnregisterProcess(id);
        return;
      }
      assert events[..handled] == events;
      if ending.RaisesCaught? {
        stage := "failed";
        exitCode := Some(1);
        if |logs| < maxLogs {
          logs := logs + ["error: " + ending.text];
        }
        processes.UnregisterProcess(id);
        return;
      }
      var wasCancelled := processes.TakeCancellation(id);
      Conclude(events, wasCancelled, cancelTold, maxLogs);
      callback := stage == "completed" && hasCallback;
      processes.UnregisterProcess(id);
    }
  }

  /** The process map and the marks after a run: the mark is taken if it was asked for, the process always. */
  function Forgotten(s: CancelProtocol.Handles, id: string, asked: bool): CancelProtocol.Handles {
    CancelProtocol.Handles(s.live - {id}, if asked then s.pending - {id} else s.pending)
  }

  /** The exit code that counts is that of the last event whose stage is one of the three final ones, if there is any.
      */
  lemma {:induction false} LastExitIsOf(events: seq<AdapterEvent>)
    ensures forall k :: 0 <= k < |events| && FinalStage(events[k].stage)
                        && (forall j :: k < j < |events| ==> !FinalStage(events[j].stage))
              ==> LastExit(events) == events[k].exitCode
    ensures (forall k :: 0 <= k < |events| ==> !FinalStage(events[k].stage)) ==> LastExit(events) == None
  {
    if events != [] {
      var n := |events| - 1;
      LastExitIsOf(events[..n]);
      assert forall k :: 0 <= k < n ==> events[..n][k] == events[k];
    }
  }

  predicate FinalStage(stage: string) {
    stage in {"completed", "failed", "error"}
  }

  /** What a stream of events amounts to, by the stage of its last event. */
  lemma SuccessByStage(events: seq<AdapterEvent>)
    ensures events == [] ==> Succeeds(events)
    ensures events != [] ==>
              var last := events[|events| - 1];
              && (last.stage == "completed" ==> Succeeds(events))
              && (last.stage == "failed" || last.stage == "error" ==> (Succeeds(events) <==> last.exitCode == Some(0)))
              && (!FinalStage(last.stage) ==>
                    (Succeeds(events) <==> LastExit(events) == None || LastExit(events) == Some(0)))
  {
  }

  /** An adapter without a recipe ends the job as failed. */
  lemma NoRecipeFails()
    ensures !Succeeds([AdapterEvent("error", "No install recipe configured", None)])
  {
    SuccessByStage([AdapterEvent("error", "No install recipe configured", None)]);
  }

  /** A failure tells of a cancellation exactly if one of two phrases occurs in its text. */
  lemma TellsByPhrase(e: AdapterEvent)
    ensures TellsOfCancel(e) <==>
              e.stage == "failed" && exists a: string, b: string ::
                                       e.message == a + "timed out" + b || e.message == a + "cancelled" + b
  {
    OccursSomewhere(e.message, "timed out");
    OccursSomewhere(e.message, "cancelled");
    if TellsOfCancel(e) {
      if Contains(e.message, "timed out") {
        var a, b := Around(e.message, "timed out");
      } else {
        var a, b := Around(e.message, "cancelled");
      }
    }
  }

  lemma Around(text: string, word: string) returns (a: string, b: string)
    requires Contains(text, word)
    ensures text == a + word + b
  {
    var i: nat :| i <= |text| && OccursAt(text, word, i);
    a, b := text[..i], text[i + |word|..];
    assert text == text[..i] + text[i..i + |word|] + text[i + |word|..];
  }

  lemma OccursSomewhere(text: string, word: string)
    ensures forall a: string, b: string :: text == a + word + b ==> Contains(text, word)
  {
    forall a: string, b: string | text == a + word + b ensures Contains(text, word) {
      assert OccursAt(text, word, |a|);
    }
  }

  /** A job left unsettled: one line of output, and then an exception that the runner does not catch. */
  lemma UncaughtLeavesRunning()
    ensures var events := [AdapterEvent("started", "Installing harness", None), AdapterEvent("running", "x", None)];
            LastStage(events) == "running" && !IsSettled(LastStage(events))
  {
    var events := [AdapterEvent("started", "Installing harness", None), AdapterEvent("running", "x", None)];
    assert events[..2] == events;
    PushEvent(events, 1);
  }

  /** A job whose runner crashed shows a final stage only if the last event handled was a terminal one. */
  lemma SettledByLast(events: seq<AdapterEvent>, k: nat)
    requires k <= |events|
    ensures IsSettled(LastStage(events[..k])) <==> k > 0 && IsTerminal(events[k - 1])
  {
    if k > 0 {
      PushEvent(events, k - 1);
    }
  }

  /** The events of an installer that was followed to its end. */
  function Adapted(e: Event): AdapterEvent {
    match e
    case Line(text) => AdapterEvent("running", text, None)
    case Terminal(completed, code, text) => AdapterEvent(if completed then "completed" else "failed", text, Some(code))
  }

  function InstallEvents(followed: seq<Event>): seq<AdapterEvent> {
    [AdapterEvent("started", "Installing harness", None)]
    + seq(|followed|, i requires 0 <= i < |followed| => Adapted(followed[i]))
  }

  lemma NothingInNothing()
    ensures !Contains("", "timed out") && !Contains("", "cancelled")
  {
  }

  /** An install job completes exactly when the installer was seen to exit with code 0 before its deadline and no
      cancellation is pending; of its events only the terminal one of an installer that ran into the deadline tells of
      a cancellation. */
  lemma InstallCompletesIff(lines: seq<string>, followed: seq<Event>, watcher: Watcher, timeoutText: string,
                            wasCancelled: bool)
    requires Report(lines, followed, TerminalOf(watcher, timeoutText)) && Contains(timeoutText, "timed out")
    ensures var events := InstallEvents(followed);
            && (Succeeds(events) && !CancelledSilently(events, wasCancelled) <==> watcher == Exited(0) && !wasCancelled)
            && (CancelTold(events) <==> watcher.TimedOut?)
            && LastExit(events) == Some(if watcher.Exited? then watcher.code else -1)
  {
    var events := InstallEvents(followed);
    var n := |followed|;
    assert events[n] == Adapted(followed[n - 1]) && |events| == n + 1;
    assert events[n] in events;
    NothingInNothing();
  }

  lemma InstallPush(front: seq<Event>, e: Event)
    ensures InstallEvents(front + [e]) == InstallEvents(front) + [Adapted(e)]
  {
  }

  lemma MessagesPush(events: seq<AdapterEvent>, e: AdapterEvent)
    ensures Messages(events + [e]) == Messages(events) + if e.message == "" then [] else [e.message]
  {
    assert (events + [e])[..|events|] == events;
  }

  lemma {:induction false} LinesAreLogged(followed: seq<Event>)
    requires forall i :: 0 <= i < |followed| ==> followed[i].Line?
    ensures Messages(InstallEvents(followed)) == ["Installing harness"] + Where(Texts(followed), NotEmpty())
    decreases |followed|
  {
    if followed == [] {
      MessagesPush([], AdapterEvent("started", "Installing harness", None));
    } else {
      var n := |followed| - 1;
      LinesAreLogged(followed[..n]);
      LogPush(followed[..n], followed[n]);
      assert followed[..n] + [followed[n]] == followed;
    }
  }

  /** One more event is one more entry of the log, unless its text is empty. */
  lemma LogPush(front: seq<Event>, e: Event)
    ensures Messages(InstallEvents(front + [e]))
         == Messages(InstallEvents(front)) + if e.text == "" then [] else [e.text]
    ensures e.Line? ==> (Where(Texts(front + [e]), NotEmpty())
                         == Where(Texts(front), NotEmpty()) + if e.text == "" then [] else [e.text])
    ensures e.Terminal? ==> Texts(front + [e]) == Texts(front)
  {
    InstallPush(front, e);
    MessagesPush(InstallEvents(front), Adapted(e));
    TextsPush(front, e);
    assert Texts(front) + [] == Texts(front);
    if e.Line? {
      WhereAppend(Texts(front), [e.text], NotEmpty());
    }
  }

  /** An install job logs its opening line, the non-empty lines it was given, and the text of a deadline passed. */
  lemma InstallLog(lines: seq<string>, followed: seq<Event>, watcher: Watcher, timeoutText: string)
    requires Report(lines, followed, TerminalOf(watcher, timeoutText)) && timeoutText != ""
    ensures Messages(InstallEvents(followed)) ==
              ["Installing harness"] + Where(Texts(followed), NotEmpty())
              + (if watcher.TimedOut? then [timeoutText] else [])
  {
    var n := |followed| - 1;
    LinesAreLogged(followed[..n]);
    LogPush(followed[..n], followed[n]);
    assert followed[..n] + [followed[n]] == followed;
  }
}
