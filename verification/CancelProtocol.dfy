/** Cancelling a process that may not have been registered yet: one protocol, two services. */
module CancelProtocol {
  import opened Rows

  /** Registered handles by id, and ids whose cancellation came before the registration. */
  datatype Handles = Handles(live: map<string, int>, pending: set<string>)

  datatype Step =
    | DoRegister(rid: string, handle: int)
    | DoCancel(cid: string)
    | DoCleanup(uid: string)
    | DoSettle(sid: string)      // the job runner asks whether a cancellation is still pending
    | DoClear

  datatype Outcome =
    | Stored
    | Killed                     // the process was not stored; it is killed if still running
    | Cancelled(handle: int)     // the process was taken out; it is killed if still running
    | Remembered                 // nothing to cancel yet
    | WasPending(yes: bool)
    | Quiet

  function Next(s: Handles, step: Step): (Handles, Outcome) {
    match step
    case DoRegister(id, h) =>
      if id in s.pending then (s.(pending := s.pending - {id}), Killed)
      else (s.(live := s.live[id := h]), Stored)
    case DoCancel(id) =>
      if id in s.live then (s.(live := s.live - {id}), Cancelled(s.live[id]))
      else (s.(pending := s.pending + {id}), Remembered)
    case DoCleanup(id) => (s.(live := s.live - {id}), Quiet)
    case DoSettle(id) => (s.(pending := s.pending - {id}), WasPending(id in s.pending))
    case DoClear => (Handles(map[], {}), Quiet)
  }

  // ----- playing steps

  /** Any steps, one after the other. */
  function Play(s: Handles, steps: seq<Step>): Handles {
    if steps == [] then s else Next(Play(s, steps[..|steps| - 1]), steps[|steps| - 1]).0
  }

  lemma PlayPush(s: Handles, steps: seq<Step>, step: Step)
    ensures Play(s, steps + [step]) == Next(Play(s, steps), step).0
  {
    assert (steps + [step])[..|steps|] == steps;
  }

  lemma {:induction false} PlayAppend(s: Handles, a: seq<Step>, b: seq<Step>)
    ensures Play(s, a + b) == Play(Play(s, a), b)
    decreases |b|
  {
    if b == [] {
      assert a + b == a;
    } else {
      assert (a + b)[..|a + b| - 1] == a + b[..|b| - 1];
      PlayAppend(s, a, b[..|b| - 1]);
    }
  }

  // ----- the job service

  class JobProcesses {
    var processes: map<string, int>
    var cancelled: set<string>

    ghost function View(): Handles
      reads this
    {
      Handles(processes, cancelled)
    }

    constructor ()
      ensures View() == Handles(map[], {})
    {
      processes := map[];
      cancelled := {};
    }

    method RegisterProcess(job: string, handle: int, running: bool) returns (killed: bool)
      modifies this
      ensures View() == Next(old(View()), DoRegister(job, handle)).0
      ensures killed <==> running && Next(old(View()), DoRegister(job, handle)).1 == Killed
    {
      if job in cancelled {
        cancelled := cancelled - {job};
        return running;
      }
      processes := processes[job := handle];
      killed := false;
    }

    method UnregisterProcess(job: string)
      modifies this
      ensures View() == Next(old(View()), DoCleanup(job)).0
    {
      processes := processes - {job};
    }

    method Cancel(job: string, running: bool) returns (found: bool, killed: Option<int>)
      modifies this
      ensures View() == Next(old(View()), DoCancel(job)).0
      ensures found <==> Next(old(View()), DoCancel(job)).1 != Remembered
      ensures killed == if found && running then Some(old(processes)[job]) else None
    {
      if job !in processes {
        cancelled := cancelled + {job};
        return false, None;
      }
      var handle := processes[job];
      processes := processes - {job};
      return true, if running then Some(handle) else None;
    }

    /** At the end of a run: was a cancellation left unanswered? */
    method TakeCancellation(job: string) returns (was: bool)
      modifies this
      ensures (View(), WasPending(was)) == Next(old(View()), DoSettle(job))
    {
      was := job in cancelled;
      assert !was ==> cancelled - {job} == cancelled;
      if was {
        cancelled := cancelled - {job};
      }
    }

    method Clear()
      modifies this
      ensures View() == Next(old(View()), DoClear).0
    {
      cancelled := {};
      processes := map[];
    }
  }

  // ----- runs

  /** What a run has done with handles: those stored, and those handed to a successful cancellation, in order. */
  datatype World = World(state: Handles, stored: seq<int>, taken: seq<int>, refused: seq<int>)

  const Start: World := World(Handles(map[], {}), [], [], [])

  function After(w: World, step: Step): World {
    var (s, o) := Next(w.state, step);
    match o
    case Stored => w.(state := s, stored := w.stored + [step.handle])
    case Killed => w.(state := s, refused := w.refused + [step.handle])
    case Cancelled(h) => w.(state := s, taken := w.taken + [h])
    case _ => w.(state := s)
  }

  function Run(w: World, steps: seq<Step>): World
    decreases |steps|
  {
    if steps == [] then w else Run(After(w, steps[0]), steps[1..])
  }

  predicate Seen(w: World, h: int) {
    h in w.stored || h in w.refused
  }

  /** Every registration brings a process of its own. */
  predicate NewProcesses(w: World, steps: seq<Step>)
    decreases |steps|
  {
    steps != [] ==>
      && (steps[0].DoRegister? ==> !Seen(w, steps[0].handle))
      && NewProcesses(After(w, steps[0]), steps[1..])
  }

  predicate NoRepeats(s: seq<int>) {
    forall i, j :: 0 <= i < j < |s| ==> s[i] != s[j]
  }

  ghost predicate Ok(w: World) {
    && (forall id :: id in w.state.live ==> id !in w.state.pending)
    && (forall id :: id in w.state.live ==> w.state.live[id] in w.stored && w.state.live[id] !in w.taken)
    && (forall a, b :: a in w.state.live && b in w.state.live && a != b ==> w.state.live[a] != w.state.live[b])
    && (forall h :: h in w.taken ==> h in w.stored)
    && (forall h :: h in w.refused ==> h !in w.stored)
    && NoRepeats(w.taken) && NoRepeats(w.stored)
    && |w.taken| + |w.state.live| <= |w.stored|
  }

  lemma PushNew(s: seq<int>, h: int)
    requires NoRepeats(s) && h !in s
    ensures NoRepeats(s + [h])
  {
  }

  lemma StoreOk(w: World, id: string, h: int)
    requires Ok(w) && !Seen(w, h) && id !in w.state.pending
    ensures Ok(w.(state := w.state.(live := w.state.live[id := h]), stored := w.stored + [h]))
  {
    PushNew(w.stored, h);
    LiveGrows(w.state.live, id, h);
  }

  lemma TakeOk(w: World, id: string)
    requires Ok(w) && id in w.state.live
    ensures Ok(w.(state := w.state.(live := w.state.live - {id}), taken := w.taken + [w.state.live[id]]))
  {
    PushNew(w.taken, w.state.live[id]);
    LiveShrinks(w.state.live, id);
  }

  lemma DropOk(w: World, live: map<string, int>, pending: set<string>)
    requires Ok(w)
    requires live.Keys <= w.state.live.Keys && (forall id :: id in live ==> live[id] == w.state.live[id])
    requires |live| <= |w.state.live| && (forall id :: id in live ==> id !in pending)
    ensures Ok(w.(state := Handles(live, pending)))
  {
  }

  lemma DropIdOk(w: World, id: string)
    requires Ok(w)
    ensures Ok(w.(state := w.state.(live := w.state.live - {id})))
  {
    if id in w.state.live {
      LiveShrinks(w.state.live, id);
    } else {
      assert w.state.live - {id} == w.state.live;
    }
    DropOk(w, w.state.live - {id}, w.state.pending);
  }

  lemma RefuseOk(w: World, id: string, h: int)
    requires Ok(w) && !Seen(w, h)
    ensures Ok(w.(state := w.state.(pending := w.state.pending - {id}), refused := w.refused + [h]))
  {
  }

  lemma CancelOk(w: World, id: string)
    requires Ok(w)
    ensures Ok(After(w, DoCancel(id)))
  {
    if id in w.state.live {
      TakeOk(w, id);
    } else {
      DropOk(w, w.state.live, w.state.pending + {id});
    }
  }

  lemma RegisterOk(w: World, id: string, h: int)
    requires Ok(w) && !Seen(w, h)
    ensures Ok(After(w, DoRegister(id, h)))
  {
    if id in w.state.pending {
      RefuseOk(w, id, h);
    } else {
      StoreOk(w, id, h);
    }
  }

  lemma SettleOk(w: World, id: string)
    requires Ok(w)
    ensures Ok(After(w, DoSettle(id)))
  {
    DropOk(w, w.state.live, w.state.pending - {id});
  }

  lemma ClearOk(w: World)
    requires Ok(w)
    ensures Ok(After(w, DoClear))
  {
    DropOk(w, map[], {});
  }

  lemma StepOk(w: World, step: Step)
    requires Ok(w) && (step.DoRegister? ==> !Seen(w, step.handle))
    ensures Ok(After(w, step))
  {
    match step
    case DoRegister(id, h) => RegisterOk(w, id, h);
    case DoCancel(id) => CancelOk(w, id);
    case DoCleanup(id) => DropIdOk(w, id);
    case DoSettle(id) => SettleOk(w, id);
    case DoClear => ClearOk(w);
  }

  lemma LiveGrows(m: map<string, int>, id: string, h: int)
    ensures |m[id := h]| <= |m| + 1
  {
    assert m[id := h].Keys == m.Keys + {id};
  }

  lemma LiveShrinks(m: map<string, int>, id: string)
    requires id in m
    ensures |m - {id}| == |m| - 1
  {
    assert (m - {id}).Keys == m.Keys - {id};
  }

  lemma {:induction false} RunOk(w: World, steps: seq<Step>)
    requires Ok(w) && NewProcesses(w, steps)
    ensures Ok(Run(w, steps))
    decreases |steps|
  {
    if steps != [] {
      StepOk(w, steps[0]);
      RunOk(After(w, steps[0]), steps[1..]);
    }
  }

  /** In every interleaving: no id is registered and pending at once, and successful cancellations take
      distinct registered processes, so they never outnumber the registrations that were stored. */
  lemma CancelsTakeDistinctProcesses(steps: seq<Step>)
    requires NewProcesses(Start, steps)
    ensures var w := Run(Start, steps);
            && w.state.live.Keys !! w.state.pending
            && NoRepeats(w.taken) && (forall h :: h in w.taken ==> h in w.stored)
            && |w.taken| <= |w.stored|
            && (forall h :: h in w.refused ==> h !in w.stored && h !in w.taken && h !in w.state.live.Values)
  {
    RunOk(Start, steps);
  }

  predicate Disturbs(step: Step, id: string) {
    (step.DoRegister? && step.rid == id) || (step.DoSettle? && step.sid == id) || step.DoClear?
  }

  lemma {:induction false} MarkStays(w: World, steps: seq<Step>, id: string)
    requires id in w.state.pending && id !in w.state.live
    requires forall s :: s in steps ==> !Disturbs(s, id)
    ensures id in Run(w, steps).state.pending && id !in Run(w, steps).state.live
    decreases |steps|
  {
    if steps != [] {
      assert !Disturbs(steps[0], id);
      MarkStays(After(w, steps[0]), steps[1..], id);
    }
  }

  lemma {:induction false} RefusedStays(w: World, steps: seq<Step>, h: int)
    requires h in w.refused
    ensures h in Run(w, steps).refused
    decreases |steps|
  {
    if steps != [] {
      RefusedStays(After(w, steps[0]), steps[1..], h);
    }
  }

  /** A cancellation that found nothing kills the next process registered under its id; that process is never stored,
      however the run goes on. */
  lemma MissedCancelKillsNextRegister(before: seq<Step>, id: string, between: seq<Step>, h: int, after: seq<Step>)
    requires var w := Run(Start, before); NewProcesses(Start, before) && Next(w.state, DoCancel(id)).1 == Remembered
    requires forall s :: s in between ==> !Disturbs(s, id)
    requires NewProcesses(After(Run(Start, before), DoCancel(id)), between)
    requires var w := Run(After(Run(Start, before), DoCancel(id)), between);
             !Seen(w, h) && NewProcesses(After(w, DoRegister(id, h)), after)
    ensures var w := Run(After(Run(Start, before), DoCancel(id)), between);
            var end := Run(After(w, DoRegister(id, h)), after);
            && Next(w.state, DoRegister(id, h)).1 == Killed
            && h !in end.stored && h !in end.taken && h !in end.state.live.Values
  {
    var w0 := Run(Start, before);
    RunOk(Start, before);
    StepOk(w0, DoCancel(id));
    var w1 := After(w0, DoCancel(id));
    MarkStays(w1, between, id);
    RunOk(w1, between);
    var w2 := Run(w1, between);
    StepOk(w2, DoRegister(id, h));
    RunOk(After(w2, DoRegister(id, h)), after);
    RefusedStays(After(w2, DoRegister(id, h)), after, h);
  }
}
