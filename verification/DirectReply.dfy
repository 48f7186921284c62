/** Requests answered in one piece: the harness runs once or twice, and the reservation is finalized or given back. */
module DirectReply {
  import opened Rows
  import opened Calendar
  import opened QuotaLedger
  import opened QuotaRuns
  import QuotaLimits
  import Settlement

  /** How one harness run ends; `valid` tells whether its text meets the requested format. */
  datatype RunOutcome = Produced(valid: bool) | RuntimeFault(timedOut: bool) | OsOrValueFault | OtherFault

  /** How everything outside the handler behaves during one request. */
  datatype Env = Env(
    prepared: bool,          // storing the user message and building the prompt (conversation endpoint)
    wantsFormat: bool,       // a response format was asked for (completions endpoint)
    first: RunOutcome,
    second: RunOutcome,      // the one retry after a malformed answer
    errorSaved: bool,        // storing the error message (conversation endpoint)
    saved: bool,             // storing the assistant message (conversation endpoint)
    finalizing: Database,
    releasing: Database,
    rendered: bool)          // building the body of the answer

  datatype Reply = Answered | HarnessTimedOut | HarnessFailed | Malformed | FinalizationFailed | Unhandled

  /** Whom the request is charged to, and with what. */
  datatype Claim = Claim(token: Option<string>, key: Option<int>, now: DateTime, charge: Charge)

  predicate BeforeFinalization(r: Reply) {
    r.HarnessTimedOut? || r.HarnessFailed? || r.Malformed?
  }

  function FaultReply(timedOut: bool): Reply {
    if timedOut then HarnessTimedOut else HarnessFailed
  }

  /** The completions endpoint produced nothing it may answer with. */
  function CompletionFault(env: Env): Option<Reply> {
    match env.first
    case RuntimeFault(timedOut) => Some(FaultReply(timedOut))
    case OsOrValueFault => Some(Unhandled)
    case OtherFault => Some(Unhandled)
    case Produced(valid) =>
      if !env.wantsFormat || valid then None
      else
        match env.second
        case Produced(true) => None
        case OtherFault => Some(Unhandled)
        case _ => Some(Malformed)
  }

  function MessageFault(env: Env): Option<Reply> {
    if !env.prepared then Some(Unhandled)
    else
      match env.first
      case Produced(_) => None
      case RuntimeFault(timedOut) => if env.errorSaved then Some(FaultReply(timedOut)) else Some(Unhandled)
      case _ => Some(Unhandled)
  }

  /** What the request does to the ledger: at most one transaction. `fault` is what stopped it before finalization. */
  function Steps(fault: Option<Reply>, saved: bool, claim: Claim, env: Env): (s: seq<Step>)
    ensures |s| <= 1
  {
    if fault.Some? then (if Given(claim.token) then [DoRelease(claim.token, env.releasing)] else [])
    else if !saved then []
    else [DoFinalize(claim.token, claim.key, claim.now, claim.charge, env.finalizing)]
  }

  function LedgerAfter(l: Ledger, steps: seq<Step>): Ledger
    requires |steps| <= 1
    requires forall s :: s in steps ==> s.DoRelease? || s.DoFinalize?
  {
    if steps == [] then l
    else
      var s := steps[0];
      if s.DoRelease? then Release(l, s.returned, s.db).0
      else Finalize(l, s.spent, s.owner, s.now, s.charge, s.db).0
  }

  /** What a reply tells about the tables: an answer is charged once, a failure of the harness costs nothing and gives
      the reservation back, a failed finalization leaves everything as it was. */
  ghost predicate ReplyTells(reply: Reply, before: Ledger, after: Ledger, claim: Claim, env: Env) {
    && (reply.Answered? ==> after.usage == before.usage + [UsageRow(claim.key, claim.now, claim.charge)]
                            && (Given(claim.token) ==>
                                  Holds(before, claim.token.value) && !Holds(after, claim.token.value)))
    && (reply.FinalizationFailed? ==> after == before)
    && (BeforeFinalization(reply) ==>
          && after.usage == before.usage
          && (Given(claim.token) && env.releasing.Commits? ==> !Holds(after, claim.token.value)))
    && (!reply.Answered? && !reply.Unhandled? ==> after.usage == before.usage)
  }

  /** The request was finalized, and the reply says how that went. */
  ghost predicate WasFinalized(reply: Reply, before: Ledger, after: Ledger, claim: Claim, env: Env) {
    exists rec: Option<UsageRecord> ::
      && FinalizationTells(before, after, rec, claim.token, claim.key, claim.now, claim.charge, env.finalizing)
      && reply == if rec == None then FinalizationFailed else if env.rendered then Answered else Unhandled
  }

  /** The reservation, if any, was given back as far as the database went along. */
  ghost predicate WasReleased(before: Ledger, after: Ledger, claim: Claim, env: Env) {
    exists released: bool :: ReleaseTells(before, after, released, claim.token, env.releasing)
  }

  /** A completion is finalized exactly if the first run produced something acceptable, or the retry did. */
  ghost predicate CompletionTells(reply: Reply, before: Ledger, after: Ledger, claim: Claim, env: Env) {
    match env.first
    case RuntimeFault(timedOut) =>
      WasReleased(before, after, claim, env) && reply == if timedOut then HarnessTimedOut else HarnessFailed
    case OsOrValueFault => WasReleased(before, after, claim, env) && reply == Unhandled
    case OtherFault => WasReleased(before, after, claim, env) && reply == Unhandled
    case Produced(valid) =>
      if !env.wantsFormat || valid || env.second == Produced(true) then WasFinalized(reply, before, after, claim, env)
      else WasReleased(before, after, claim, env) && reply == if env.second.OtherFault? then Unhandled else Malformed
  }

  /** A message is finalized exactly if the harness answered and the answer was stored. */
  ghost predicate MessageTells(reply: Reply, before: Ledger, after: Ledger, claim: Claim, env: Env) {
    if env.prepared && env.first.Produced? then
      if env.saved then WasFinalized(reply, before, after, claim, env) else after == before && reply == Unhandled
    else
      && WasReleased(before, after, claim, env)
      && reply == if !env.prepared || !env.first.RuntimeFault? || !env.errorSaved then Unhandled
                  else if env.first.timedOut then HarnessTimedOut else HarnessFailed
  }

  /** The reservation is given back in the end unless finalization had begun. */
  method CleanUp(service: QuotaService, canRelease: bool, token: Option<string>, db: Database)
    modifies service
    ensures service.State() == if Given(token) && canRelease then Release(old(service.State()), token, db).0
                               else old(service.State())
    ensures canRelease ==> exists released :: ReleaseTells(old(service.State()), service.State(), released, token, db)
    ensures !canRelease ==> service.State() == old(service.State())
  {
    assert ReleaseTells(service.State(), Release(service.State(), token, db).0, Release(service.State(), token, db).1,
                        token, db) by {
      ReleaseLaw(service.State(), token, db);
    }
    if Given(token) && canRelease {
      var _ := service.ReleaseReservation(token, db);
    }
  }

  /** The reply that follows from what finalization returns. */
  function Outcome(before: Ledger, claim: Claim, env: Env): Reply {
    var rec := Finalize(before, claim.token, claim.key, claim.now, claim.charge, env.finalizing).1;
    if rec == None then FinalizationFailed else if env.rendered then Answered else Unhandled
  }

  method FinalizeAndRender(service: QuotaService, claim: Claim, env: Env) returns (reply: Reply)
    modifies service
    ensures service.State()
         == Finalize(old(service.State()), claim.token, claim.key, claim.now, claim.charge, env.finalizing).0
    ensures reply == Outcome(old(service.State()), claim, env)
    ensures WasFinalized(reply, old(service.State()), service.State(), claim, env)
  {
    var rec := service.FinalizeReservation(claim.token, claim.key, claim.now, claim.charge, env.finalizing);
    if rec == None {
      return FinalizationFailed;
    }
    reply := if env.rendered then Answered else Unhandled;
  }

  method CompleteOnce(service: QuotaService, claim: Claim, env: Env) returns (reply: Reply)
    modifies service
    ensures service.State() == LedgerAfter(old(service.State()), Steps(CompletionFault(env), true, claim, env))
    ensures reply == if CompletionFault(env).Some? then CompletionFault(env).value
                     else Outcome(old(service.State()), claim, env)
    ensures ReplyTells(reply, old(service.State()), service.State(), claim, env)
    ensures CompletionTells(reply, old(service.State()), service.State(), claim, env)
  {
    var canRelease := true;
    var fault: Option<Reply> := None;
    match env.first {
      case RuntimeFault(timedOut) => fault := Some(FaultReply(timedOut));
      case OsOrValueFault => fault := Some(Unhandled);
      case OtherFault => fault := Some(Unhandled);
      case Produced(valid) =>
        if env.wantsFormat && !valid {
          match env.second {
            case Produced(valid2) => if !valid2 { fault := Some(Malformed); }
            case RuntimeFault(_) => fault := Some(Malformed);
            case OsOrValueFault => fault := Some(Malformed);
            case OtherFault => fault := Some(Unhandled);
          }
        }
    }
    if fault.Some? {
      CleanUp(service, canRelease, claim.token, env.releasing);
      return fault.value;
    }
    canRelease := false;
    reply := FinalizeAndRender(service, claim, env);
    CleanUp(service, canRelease, claim.token, env.releasing);
  }

  method SendMessage(service: QuotaService, claim: Claim, env: Env) returns (reply: Reply)
    modifies service
    ensures service.State() == LedgerAfter(old(service.State()), Steps(MessageFault(env), env.saved, claim, env))
    ensures reply == if MessageFault(env).Some? then MessageFault(env).value
                     else if !env.saved then Unhandled else Outcome(old(service.State()), claim, env)
    ensures ReplyTells(reply, old(service.State()), service.State(), claim, env)
    ensures MessageTells(reply, old(service.State()), service.State(), claim, env)
  {
    var canRelease := true;
    if !env.prepared || env.first.OsOrValueFault? || env.first.OtherFault? {
      CleanUp(service, canRelease, claim.token, env.releasing);
      return Unhandled;
    }
    if env.first.RuntimeFault? {
      CleanUp(service, canRelease, claim.token, env.releasing);
      return if env.errorSaved then FaultReply(env.first.timedOut) else Unhandled;
    }
    canRelease := false;
    if !env.saved {
      CleanUp(service, canRelease, claim.token, env.releasing);
      return Unhandled;
    }
    reply := FinalizeAndRender(service, claim, env);
    CleanUp(service, canRelease, claim.token, env.releasing);
  }

  // ----- the fate of the token

  /** What a direct reply does to its token, with any transactions of other clients before and after its own: finalized
      exactly when finalization was reached, committed and found the token unexpired; released exactly when it was not
      reached, the release committed and found the token unexpired; a token that expired meanwhile stays expired and is
      never charged, and one that is left over can only expire. */
  lemma ReplySettlesToken(limits: int -> Limits, before: seq<Step>, after: seq<Step>, fault: Option<Reply>, saved: bool,
                          claim: Claim, env: Env)
    requires Given(claim.token) && claim.token.value in Run(limits, before).fate
    requires HonestRun(limits, before + Steps(fault, saved, claim, env) + after)
    requires forall s :: s in after ==> !Settlement.Names(s, claim.token.value)
    ensures var t, own := claim.token.value, Steps(fault, saved, claim, env);
            var w, end := Run(limits, before), Run(limits, before + own + after);
            var recorded := fault == None && saved && env.finalizing.Commits? && Fated(w, t, Pending);
            var freed := fault.Some? && env.releasing.Commits? && Fated(w, t, Pending);
            && Run(limits, before + own).ledger == LedgerAfter(w.ledger, own)
            && Settlement.EndsAs(end, t, w.fate[t], recorded, freed)
            && Count(end.bills, QuotaLimits.PaidWith(t)) == (if Fated(end, t, Finalized) then 1 else 0)
            && Run(limits, before + own).ledger.usage == w.ledger.usage
                 + if recorded then [UsageRow(claim.key, claim.now, claim.charge)] else []
  {
    var t, own := claim.token.value, Steps(fault, saved, claim, env);
    Settlement.OneSettlement(limits, before, own, after, t);
    if own == [] {
      assert before + own == before;
    } else {
      assert own == [own[0]];
      QuotaLimits.Extend(limits, before, own[0]);
    }
  }

  /** Any finalization that returns a record, from a stream or from a direct reply, found its token pending and leaves
      it finalized, with exactly one usage row more. */
  lemma RecordMeansCharged(limits: int -> Limits, w: World, s: Step)
    requires Booked(w) && Honest(w, s) && s.DoFinalize? && Given(s.spent)
    requires Finalize(w.ledger, s.spent, s.owner, s.now, s.charge, s.db).1.Some?
    ensures Fated(w, s.spent.value, Pending) && Fated(Next(limits, w, s), s.spent.value, Finalized)
    ensures |Next(limits, w, s).ledger.usage| == |w.ledger.usage| + 1
  {
    var t := s.spent.value;
    var r :| r in w.ledger.reservations && r.token == t;
    assert IssuedRow(w.issued, r);
    assert Open(w.issued, w.ledger, t);
  }
}
