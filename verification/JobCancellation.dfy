/** What cancelling a job means at each point of its life. */
module JobCancellation {
  import opened Rows
  import opened CancelProtocol
  import Drain
  import JobRunner

  /** Of the job's own steps only cancellations; other jobs do as they like. */
  predicate OnlyCancels(steps: seq<Step>, id: string) {
    forall s :: s in steps ==>
      !s.DoClear? && !(s.DoRegister? && s.rid == id) && !(s.DoCleanup? && s.uid == id) && !(s.DoSettle? && s.sid == id)
  }

  function CancelsOf(id: string): Step -> bool {
    (s: Step) => s == DoCancel(id)
  }

  /** How often the job is cancelled. */
  function Cancels(steps: seq<Step>, id: string): nat {
    Count(steps, CancelsOf(id))
  }

  predicate NotBoth(s: Handles, id: string) {
    id in s.live ==> id !in s.pending
  }

  /** The first cancellation takes a registered process; any other one leaves a mark. */
  lemma {:induction false} CancelsCount(s: Handles, steps: seq<Step>, id: string)
    requires OnlyCancels(steps, id) && NotBoth(s, id)
    ensures var n, end := Cancels(steps, id), Play(s, steps);
            && NotBoth(end, id)
            && (id in end.live <==> id in s.live && n == 0)
            && (id in end.live ==> end.live[id] == s.live[id])
            && (id in end.pending <==> id in s.pending || n > if id in s.live then 1 else 0)
  {
    if steps != [] {
      var front, last := steps[..|steps| - 1], steps[|steps| - 1];
      assert steps == front + [last];
      CountPush(front, last, CancelsOf(id));
      CancelsCount(s, front, id);
      assert last in steps;
    }
  }

  /** A job's life: steps before its process registers, while the process runs, and from its exit until the runner asks
      whether a cancellation is pending. `running`: the process is still running when it registers. */
  datatype Life = Life(before: seq<Step>, handle: int, running: bool, during: seq<Step>, past: seq<Step>)

  predicate Lives(life: Life, id: string) {
    OnlyCancels(life.before, id) && OnlyCancels(life.during, id) && OnlyCancels(life.past, id)
  }

  function AtRegistration(s: Handles, life: Life): Handles {
    Play(s, life.before)
  }

  function AtExit(s: Handles, life: Life, id: string): Handles {
    Play(Next(AtRegistration(s, life), DoRegister(id, life.handle)).0, life.during)
  }

  /** The state in which the runner asks. */
  function AtSettling(s: Handles, life: Life, id: string): Handles {
    Play(AtExit(s, life, id), life.past)
  }

  /** The process is killed: at its registration if a cancellation came first, or by one that comes while it runs. */
  predicate Killed(s: Handles, life: Life, id: string) {
    if id in AtRegistration(s, life).pending then life.running else id !in AtExit(s, life, id).live
  }

  lemma LifeCounts(s: Handles, life: Life, id: string)
    requires Lives(life, id) && id !in s.live && id !in s.pending
    ensures var early, during, past := Cancels(life.before, id), Cancels(life.during, id), Cancels(life.past, id);
            && (Killed(s, life, id) <==> if early > 0 then life.running else during > 0)
            && (id in AtSettling(s, life, id).pending <==> during + past > if early > 0 then 0 else 1)
            && (id in AtExit(s, life, id).live <==> early == 0 && during == 0)
            && (id in AtExit(s, life, id).live ==> AtExit(s, life, id).live[id] == life.handle)
  {
    var registered := Next(AtRegistration(s, life), DoRegister(id, life.handle)).0;
    CancelsCount(s, life.before, id);
    CancelsCount(registered, life.during, id);
    CancelsCount(AtExit(s, life, id), life.past, id);
  }

  /** What the runner makes of an installer that was followed to its end, with or without a pending cancellation. */
  ghost predicate Completes(followed: seq<Drain.Event>, wasCancelled: bool) {
    var events := JobRunner.InstallEvents(followed);
    JobRunner.Succeeds(events) && !JobRunner.CancelledSilently(events, wasCancelled)
  }

  /** An install job completes exactly when its process was left alone to exit with code 0 in time, and the job was
      either never cancelled, or cancelled once after the exit, or cancelled only before a registration that found the
      process already gone. `alone` is what the watcher would see of a process that nobody kills; a killed one never
      shows code 0. */
  lemma InstallCompletesUnlessCancelled(s: Handles, life: Life, id: string, lines: seq<string>,
                                        followed: seq<Drain.Event>,
                                        alone: Drain.Watcher, seen: Drain.Watcher, timeoutText: string)
    requires Lives(life, id) && id !in s.live && id !in s.pending
    requires if Killed(s, life, id) then seen != Drain.Exited(0) else seen == alone
    requires Drain.Report(lines, followed, Drain.TerminalOf(seen, timeoutText))
    requires JobRunner.Contains(timeoutText, "timed out")
    ensures var early, during, past := Cancels(life.before, id), Cancels(life.during, id), Cancels(life.past, id);
            Completes(followed, id in AtSettling(s, life, id).pending)
            <==> && alone == Drain.Exited(0)
                 && if early > 0 then !life.running && during + past == 0 else during == 0 && past <= 1
  {
    LifeCounts(s, life, id);
    JobRunner.InstallCompletesIff(lines, followed, seen, timeoutText, id in AtSettling(s, life, id).pending);
  }

  /** A cancellation that comes first after the exit answers that there was a process, and yet the job completes; so a
      job that completes can have been told cancelled, once, and then only so late. */
  lemma LateCancelIsAnswered(s: Handles, life: Life, id: string, others: seq<Step>)
    requires Lives(life, id) && id !in s.live && id !in s.pending
    requires OnlyCancels(others, id) && Cancels(others, id) == 0
    requires Cancels(life.before, id) == 0 && Cancels(life.during, id) == 0
    ensures Next(Play(AtExit(s, life, id), others), DoCancel(id)).1 == Cancelled(life.handle)
  {
    LifeCounts(s, life, id);
    CancelsCount(s, life.before, id);
    CancelsCount(Next(AtRegistration(s, life), DoRegister(id, life.handle)).0, life.during, id);
    CancelsCount(AtExit(s, life, id), others, id);
  }
}
