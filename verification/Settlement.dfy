/** One request's own transaction among the transactions of all other clients. */
module Settlement {
  import opened Rows
  import opened QuotaLedger
  import opened QuotaRuns
  import opened QuotaLimits

  /** The step finalizes or releases the token. */
  predicate Names(s: Step, token: string) {
    (s.DoFinalize? && s.spent == Some(token)) || (s.DoRelease? && s.returned == Some(token))
  }

  /** At most one transaction, and it is about the token. */
  predicate Own(own: seq<Step>, token: string) {
    |own| <= 1 && forall s :: s in own ==> Names(s, token)
  }

  /** The finalization returns a record. */
  predicate Records(w: World, own: seq<Step>) {
    own != [] && own[0].DoFinalize?
    && Finalize(w.ledger, own[0].spent, own[0].owner, own[0].now, own[0].charge, own[0].db).1.Some?
  }

  /** The release reports a released slot. */
  predicate Frees(w: World, own: seq<Step>) {
    own != [] && own[0].DoRelease? && Release(w.ledger, own[0].returned, own[0].db).1
  }

  predicate Commits(own: seq<Step>) {
    own != [] && (own[0].DoFinalize? ==> own[0].db.Commits?) && (own[0].DoRelease? ==> own[0].db.Commits?)
  }

  lemma {:induction false} HonestPrefix(limits: int -> Limits, a: seq<Step>, b: seq<Step>)
    requires HonestRun(limits, a + b)
    ensures HonestRun(limits, a)
    decreases |b|
  {
    if b == [] {
      assert a + b == a;
    } else {
      assert (a + b)[..|a + b| - 1] == a + b[..|b| - 1];
      HonestPrefix(limits, a, b[..|b| - 1]);
    }
  }

  lemma OnlyPendingIsHeld(w: World, token: string)
    requires Booked(w) && token in w.fate
    ensures Holds(w.ledger, token) <==> Fated(w, token, Pending)
  {
    if Holds(w.ledger, token) {
      var r :| r in w.ledger.reservations && r.token == token;
      assert IssuedRow(w.issued, r);
    }
  }

  /** One transaction about a token succeeds exactly if it commits and finds the token pending. */
  lemma OwnStep(limits: int -> Limits, w: World, s: Step, token: string)
    requires Booked(w) && Honest(w, s) && token in w.fate && token != "" && Names(s, token)
    ensures var w' := Next(limits, w, s);
            && Booked(w') && token in w'.fate
            && (Records(w, [s]) <==> s.DoFinalize? && s.db.Commits? && Fated(w, token, Pending))
            && (Frees(w, [s]) <==> s.DoRelease? && s.db.Commits? && Fated(w, token, Pending))
            && (Records(w, [s]) ==> Fated(w', token, Finalized)
                                    && w'.ledger.usage == w.ledger.usage + [UsageRow(s.owner, s.now, s.charge)])
            && (Frees(w, [s]) ==> Fated(w', token, Released))
            && (!Records(w, [s]) && !Frees(w, [s]) ==> w'.fate[token] == w.fate[token])
            && (!Records(w, [s]) ==> w'.ledger.usage == w.ledger.usage)
  {
    OnlyPendingIsHeld(w, token);
    NextBooked(limits, w, s);
    OnlyPendingIsHeld(Next(limits, w, s), token);
    FatesOnlyLeavePending(limits, w, s, token);
  }

  /** Nobody else naming it, a pending token can only expire. */
  lemma {:induction false} OthersOnlyExpire(limits: int -> Limits, steps: seq<Step>, k: nat, token: string)
    requires HonestRun(limits, steps) && k <= |steps| && Fated(Run(limits, steps[..k]), token, Pending)
    requires forall i :: k <= i < |steps| ==> !Names(steps[i], token)
    ensures Fated(Run(limits, steps), token, Pending) || Fated(Run(limits, steps), token, Expired)
    decreases |steps|
  {
    if k < |steps| {
      var before := steps[..|steps| - 1];
      assert before[..k] == steps[..k];
      OthersOnlyExpire(limits, before, k, token);
      RunBooked(limits, before);
      FatesOnlyLeavePending(limits, Run(limits, before), steps[|steps| - 1], token);
    } else {
      assert steps[..k] == steps;
    }
  }

  /** What became of the token at the end of a run, from its fate `was` when its own transaction came. */
  predicate EndsAs(w: World, token: string, was: Fate, recorded: bool, freed: bool) {
    if recorded then was == Pending && Fated(w, token, Finalized)
    else if freed then was == Pending && Fated(w, token, Released)
    else if was == Pending then Fated(w, token, Pending) || Fated(w, token, Expired)
    else Fated(w, token, was)
  }

  lemma OwnSteps(limits: int -> Limits, before: seq<Step>, own: seq<Step>, token: string)
    requires HonestRun(limits, before + own) && Own(own, token)
    requires token != "" && token in Run(limits, before).fate
    ensures var w, w' := Run(limits, before), Run(limits, before + own);
            && Booked(w) && Booked(w') && token in w'.fate
            && (Records(w, own) || Frees(w, own) <==> Commits(own) && Fated(w, token, Pending))
            && (if Records(w, own) then Fated(w', token, Finalized)
                else if Frees(w, own) then Fated(w', token, Released)
                else w'.fate[token] == w.fate[token])
            && w'.ledger.usage == w.ledger.usage
                 + if Records(w, own) then [UsageRow(own[0].owner, own[0].now, own[0].charge)] else []
  {
    HonestPrefix(limits, before, own);
    RunBooked(limits, before);
    RunBooked(limits, before + own);
    if own == [] {
      assert before + own == before;
    } else {
      assert own == [own[0]];
      Extend(limits, before, own[0]);
      OwnStep(limits, Run(limits, before), own[0], token);
    }
  }

  lemma FateGoesOn(limits: int -> Limits, steps: seq<Step>, after: seq<Step>, token: string)
    requires HonestRun(limits, steps + after) && token in Run(limits, steps).fate
    requires forall s :: s in after ==> !Names(s, token)
    ensures var was, end := Run(limits, steps).fate[token], Run(limits, steps + after);
            if was == Pending then Fated(end, token, Pending) || Fated(end, token, Expired) else Fated(end, token, was)
  {
    var all, k := steps + after, |steps|;
    assert all[..k] == steps;
    if Fated(Run(limits, steps), token, Pending) {
      forall i | k <= i < |all| ensures !Names(all[i], token) {
        assert all[i] == after[i - k];
      }
      OthersOnlyExpire(limits, all, k, token);
    } else {
      FateIsFinal(limits, all, k, token);
    }
  }

  /** Whatever other clients do before and after, prunes included: a token's own transaction succeeds exactly if it
      commits and the token has not expired meanwhile; the fate it finds or gives is the last one, save that an
      unsettled token may still expire; and the token is charged once if it ends finalized, and never otherwise. */
  lemma OneSettlement(limits: int -> Limits, before: seq<Step>, own: seq<Step>, after: seq<Step>, token: string)
    requires HonestRun(limits, before + own + after) && Own(own, token)
    requires token != "" && token in Run(limits, before).fate
    requires forall s :: s in after ==> !Names(s, token)
    ensures var w, end := Run(limits, before), Run(limits, before + own + after);
            && (Records(w, own) || Frees(w, own) <==> Commits(own) && Fated(w, token, Pending))
            && EndsAs(end, token, w.fate[token], Records(w, own), Frees(w, own))
            && Count(end.bills, PaidWith(token)) == (if Fated(end, token, Finalized) then 1 else 0)
            && Run(limits, before + own).ledger.usage == w.ledger.usage
                 + if Records(w, own) then [UsageRow(own[0].owner, own[0].now, own[0].charge)] else []
  {
    HonestPrefix(limits, before + own, after);
    OwnSteps(limits, before, own, token);
    ChargedExactlyOnce(limits, before + own + after, token);
    FateGoesOn(limits, before + own, after, token);
  }
}
