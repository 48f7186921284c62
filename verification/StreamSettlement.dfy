/** What a streaming response does to the quota ledger. */
module StreamSettlement {
  import opened Rows
  import opened Pump
  import opened StreamCourse
  import StreamLaws
  import Ledger = QuotaLedger
  import Runs = QuotaRuns
  import QuotaLimits
  import Settlement
  import opened DirectReply

  /** How the database treats the finalization and the release of one stream. */
  datatype Dbs = Dbs(finalizing: Ledger.Database, releasing: Ledger.Database)

  function FinalizeStep(claim: Claim, dbs: Dbs): Runs.Step {
    Runs.DoFinalize(claim.token, claim.key, claim.now, claim.charge, dbs.finalizing)
  }

  /** The transaction behind one effect. */
  function Apply(limits: int -> Ledger.Limits, w: Runs.World, e: Effect, claim: Claim, dbs: Dbs): Runs.World {
    match e
    case FinalizationReturned(_) => Runs.Next(limits, w, FinalizeStep(claim, dbs))
    case Release => Runs.Next(limits, w, Runs.DoRelease(claim.token, dbs.releasing))
    case _ => w
  }

  function Drive(limits: int -> Ledger.Limits, w: Runs.World, t: seq<Effect>, claim: Claim, dbs: Dbs): Runs.World {
    if t == [] then w
    else Apply(limits, Drive(limits, w, t[..|t| - 1], claim, dbs), t[|t| - 1], claim, dbs)
  }

  predicate Touches(e: Effect) {
    e.FinalizationReturned? || e.Release?
  }

  ghost predicate Untouched(t: seq<Effect>) {
    forall e :: e in t ==> !Touches(e)
  }

  lemma {:induction false} DriveUntouched(limits: int -> Ledger.Limits, w: Runs.World, t: seq<Effect>, claim: Claim,
                                          dbs: Dbs)
    requires Untouched(t)
    ensures Drive(limits, w, t, claim, dbs) == w
  {
    if t != [] {
      DriveUntouched(limits, w, t[..|t| - 1], claim, dbs);
      assert t[|t| - 1] in t;
    }
  }

  lemma {:induction false} DriveAppend(limits: int -> Ledger.Limits, w: Runs.World, a: seq<Effect>, b: seq<Effect>,
                                       claim: Claim, dbs: Dbs)
    ensures Drive(limits, w, a + b, claim, dbs) == Drive(limits, Drive(limits, w, a, claim, dbs), b, claim, dbs)
    decreases |b|
  {
    if b == [] {
      assert a + b == a;
    } else {
      assert (a + b)[..|a + b| - 1] == a + b[..|b| - 1];
      DriveAppend(limits, w, a, b[..|b| - 1], claim, dbs);
    }
  }

  lemma DriveOne(limits: int -> Ledger.Limits, w: Runs.World, e: Effect, claim: Claim, dbs: Dbs)
    ensures Drive(limits, w, [e], claim, dbs) == Apply(limits, w, e, claim, dbs)
  {
    assert [e][..0] == [];
    assert Drive(limits, w, [], claim, dbs) == w;
  }

  // ----- finalization returns at most once

  /** Nothing but one return of finalization, with the given outcome, touches the ledger. */
  ghost predicate OneReturn(t: seq<Effect>, recorded: bool) {
    Untouched(t) || exists i :: ReturnAt(t, i, recorded)
  }

  ghost predicate ReturnAt(t: seq<Effect>, i: int, recorded: bool) {
    && 0 <= i < |t| && t[i] == FinalizationReturned(recorded)
    && Untouched(t[..i]) && Untouched(t[i + 1..])
  }

  lemma OneReturnPrefix(t: seq<Effect>, full: seq<Effect>, recorded: bool)
    requires t <= full && OneReturn(full, recorded)
    ensures OneReturn(t, recorded)
  {
    if !Untouched(full) {
      var i :| ReturnAt(full, i, recorded);
      if i < |t| {
        assert t[..i] == full[..i];
        assert t[i + 1..] <= full[i + 1..];
        assert ReturnAt(t, i, recorded);
      } else {
        assert forall e :: e in t ==> e in full[..i];
      }
    }
  }

  lemma OneReturnAfter(head: seq<Effect>, rest: seq<Effect>, recorded: bool)
    requires Untouched(head) && OneReturn(rest, recorded)
    ensures OneReturn(head + rest, recorded)
  {
    var t := head + rest;
    if Untouched(rest) {
      assert Untouched(t);
    } else {
      var i :| ReturnAt(rest, i, recorded);
      assert t[..|head| + i] == head + rest[..i];
      assert t[|head| + i + 1..] == rest[i + 1..];
      assert ReturnAt(t, |head| + i, recorded);
    }
  }

  lemma EndReturnsOnce(mode: Mode, frame: Framer, env: StreamCourse.Env, next: int, productive: bool)
    ensures OneReturn(Course(mode, frame, env, [], next, productive), env.recorded)
  {
    var back := FinalizationReturned(env.recorded);
    var closing := Closing(frame, env.recorded, next);
    assert Untouched(closing);
    var told := [back] + closing;
    assert told[..0] == [] && told[1..] == closing;
    assert ReturnAt(told, 0, env.recorded);
    assert OneReturn(Called(mode, frame, env, next), env.recorded);
    OneReturnAfter([CallFinalization], Called(mode, frame, env, next), env.recorded);
    assert OneReturn(Accounting(mode, frame, env, next), env.recorded);
    OneReturnAfter([LowerFlag], Accounting(mode, frame, env, next), env.recorded);
  }

  lemma {:induction false} CourseReturnsOnce(mode: Mode, frame: Framer, env: StreamCourse.Env, items: seq<StreamItem>,
                                             next: int, productive: bool)
    ensures OneReturn(Course(mode, frame, env, items, next, productive), env.recorded)
    decreases |items|
  {
    if items == [] {
      EndReturnsOnce(mode, frame, env, next, productive);
    } else {
      var x := items[0];
      CourseStep(mode, frame, env, items, next, productive);
      if !EndsStream(mode, x) {
        var id, more := NextId(mode, x, next), productive || IsTool(mode, x) || IsText(mode, x);
        CourseReturnsOnce(mode, frame, env, items[1..], id, more);
        OneReturnAfter(ItemEffects(mode, frame, x, next), Course(mode, frame, env, items[1..], id, more), env.recorded);
      }
    }
  }

  lemma DriveReturn(limits: int -> Ledger.Limits, w: Runs.World, t: seq<Effect>, recorded: bool, claim: Claim, dbs: Dbs)
    requires OneReturn(t, recorded)
    ensures Release !in t && FinalizationReturned(!recorded) !in t
    ensures Drive(limits, w, t, claim, dbs)
         == if FinalizationReturned(recorded) in t then Runs.Next(limits, w, FinalizeStep(claim, dbs)) else w
  {
    if Untouched(t) {
      DriveUntouched(limits, w, t, claim, dbs);
    } else {
      var i :| ReturnAt(t, i, recorded);
      var a, e, b := t[..i], t[i], t[i + 1..];
      assert t == a + [e] + b;
      DriveAppend(limits, w, a + [e], b, claim, dbs);
      DriveAppend(limits, w, a, [e], claim, dbs);
      DriveUntouched(limits, w, a, claim, dbs);
      DriveOne(limits, w, e, claim, dbs);
      DriveUntouched(limits, Apply(limits, w, e, claim, dbs), b, claim, dbs);
    }
  }

  // ----- the fate of the token

  /** The effects of a whole response: the generator's, and the release by its clean-up. */
  function Whole(done: seq<Effect>, released: bool): seq<Effect> {
    done + if released then [Release] else []
  }

  /** The one transaction of a stream, if any. */
  function StreamSteps(done: seq<Effect>, released: bool, claim: Claim, dbs: Dbs): (s: seq<Runs.Step>)
    ensures |s| <= 1
  {
    if FinalizationReturned(true) in done || FinalizationReturned(false) in done then [FinalizeStep(claim, dbs)]
    else if released then [Runs.DoRelease(claim.token, dbs.releasing)]
    else []
  }

  /** A stream, cut anywhere, does to the ledger what its one transaction does. */
  lemma WholeStream(limits: int -> Ledger.Limits, w: Runs.World, mode: Mode, frame: Framer, env: StreamCourse.Env,
                    items: seq<StreamItem>, done: seq<Effect>, released: bool, claim: Claim, dbs: Dbs)
    requires done <= FullCourse(mode, frame, env, items) && (released ==> LowerFlag !in done)
    ensures var own := StreamSteps(done, released, claim, dbs);
            && Drive(limits, w, Whole(done, released), claim, dbs)
               == (if own == [] then w else Runs.Next(limits, w, own[0]))
            && (FinalizationReturned(true) in done <==> own == [FinalizeStep(claim, dbs)] && env.recorded)
            && (own == [Runs.DoRelease(claim.token, dbs.releasing)] <==> released)
  {
    var start, course := Emit(frame, Start, "", 1), Course(mode, frame, env, items, 2, false);
    CourseReturnsOnce(mode, frame, env, items, 2, false);
    OneReturnAfter(start, course, env.recorded);
    OneReturnPrefix(done, start + course, env.recorded);
    DriveReturn(limits, w, done, env.recorded, claim, dbs);
    StreamLaws.EffectsInOrder(mode, frame, env, items, done);
    if released {
      NoReturnWithoutFlag(done);
      DriveAppend(limits, w, done, [Release], claim, dbs);
      DriveOne(limits, Drive(limits, w, done, claim, dbs), Release, claim, dbs);
    } else {
      assert Whole(done, released) == done;
    }
  }

  lemma NoReturnWithoutFlag(done: seq<Effect>)
    requires StreamLaws.Accounted(done) && LowerFlag !in done
    ensures FinalizationReturned(true) !in done && FinalizationReturned(false) !in done
  {
    forall k | 0 <= k < |done| ensures !done[k].CallFinalization? {
      assert !StreamLaws.Earlier(done, k, LowerFlag);
    }
    forall j | 0 <= j < |done| ensures !done[j].FinalizationReturned? {
      assert !StreamLaws.Earlier(done, j, CallFinalization);
    }
  }

  /** What a stream does to its token, with any transactions of other clients before and after its own: finalized
      exactly when finalization returned a record, which it does only for an unexpired token; released exactly when
      the clean-up released an unexpired one; a token that expired during the stream stays expired and is never
      charged, and one that is left over can only expire. A client that is sent `done` has been charged exactly once.
      */
  lemma StreamSettlesToken(limits: int -> Ledger.Limits, before: seq<Runs.Step>, after: seq<Runs.Step>, mode: Mode,
                           frame: Framer, env: StreamCourse.Env, items: seq<StreamItem>, done: seq<Effect>,
                           released: bool,
                           claim: Claim, dbs: Dbs)
    requires Ledger.Given(claim.token) && claim.token.value in Runs.Run(limits, before).fate
    requires done <= FullCourse(mode, frame, env, items) && (released ==> LowerFlag !in done)
    requires Runs.HonestRun(limits, before + StreamSteps(done, released, claim, dbs) + after)
    requires forall s :: s in after ==> !Settlement.Names(s, claim.token.value)
    requires env.recorded <==> Settlement.Records(Runs.Run(limits, before), [FinalizeStep(claim, dbs)])
    ensures var t, own := claim.token.value, StreamSteps(done, released, claim, dbs);
            var w, end := Runs.Run(limits, before), Runs.Run(limits, before + own + after);
            var recorded := FinalizationReturned(true) in done;
            var freed := released && dbs.releasing.Commits? && Runs.Fated(w, t, Runs.Pending);
            && Drive(limits, w, Whole(done, released), claim, dbs) == Runs.Run(limits, before + own)
            && Settlement.EndsAs(end, t, w.fate[t], recorded, freed)
            && Count(end.bills, QuotaLimits.PaidWith(t)) == (if Runs.Fated(end, t, Runs.Finalized) then 1 else 0)
            && Runs.Run(limits, before + own).ledger.usage == w.ledger.usage
                 + (if recorded then [Ledger.UsageRow(claim.key, claim.now, claim.charge)] else [])
            && (Done in StreamLaws.Kinds(done) ==> recorded && Count(end.bills, QuotaLimits.PaidWith(t)) == 1)
  {
    var t, own := claim.token.value, StreamSteps(done, released, claim, dbs);
    WholeStream(limits, Runs.Run(limits, before), mode, frame, env, items, done, released, claim, dbs);
    StreamLaws.EffectsInOrder(mode, frame, env, items, done);
    Settlement.OneSettlement(limits, before, own, after, t);
    if own == [] {
      assert before + own == before;
    } else {
      assert own == [own[0]];
      QuotaLimits.Extend(limits, before, own[0]);
    }
  }

  /** A stream without a token: no reservation is touched, and a usage row is added exactly when finalization returned a
      record, which it does whenever it is called and commits. */
  lemma TokenlessStreamIsCharged(limits: int -> Ledger.Limits, w: Runs.World, mode: Mode, frame: Framer,
                                 env: StreamCourse.Env, items: seq<StreamItem>, done: seq<Effect>, claim: Claim,
                                 dbs: Dbs)
    requires claim.token == None && done <= FullCourse(mode, frame, env, items)
    requires var rec := Ledger.Finalize(w.ledger, None, claim.key, claim.now, claim.charge, dbs.finalizing).1;
             env.recorded <==> rec.Some?
    ensures env.recorded <==> dbs.finalizing.Commits?
    ensures var end := Drive(limits, w, done, claim, dbs).ledger;
            && end.reservations == w.ledger.reservations
            && |end.usage| == |w.ledger.usage| + (if FinalizationReturned(true) in done then 1 else 0)
            && end.usage[..|w.ledger.usage|] == w.ledger.usage
  {
    Ledger.FinalizationLaw(w.ledger, None, claim.key, claim.now, claim.charge, dbs.finalizing);
    WholeStream(limits, w, mode, frame, env, items, done, false, claim, dbs);
    assert Whole(done, false) == done;
  }
}
