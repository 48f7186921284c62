/** What every run of the quota ledger keeps: window limits, token fates, and one charge per token. */
module QuotaLimits {
  import opened Rows
  import opened Calendar
  import opened QuotaLedger
  import opened QuotaRuns

  lemma {:induction false} RunBooked(limits: int -> Limits, steps: seq<Step>)
    requires HonestRun(limits, steps)
    ensures Booked(Run(limits, steps))
  {
    if steps != [] {
      var before := steps[..|steps| - 1];
      RunBooked(limits, before);
      NextBooked(limits, Run(limits, before), steps[|steps| - 1]);
    }
  }

  // ----- limits per window

  function OpenedInAlive(key: int, win: Window, now: DateTime): Reservation -> bool {
    (r: Reservation) => OpenedIn(key, win)(r) && Alive(now)(r)
  }

  /** The bound that the admission check uses for a window containing `now`. */
  function BoundOf(win: Window, now: DateTime): DateTime {
    if win.Day? then DailyMonthlyBounds(now).0 else DailyMonthlyBounds(now).1
  }

  /** The count that admission looks at covers everything the window holds after pruning. */
  lemma LoadIsCounted(w: World, key: int, win: Window, now: DateTime)
    requires Booked(w) && win.Contains(now)
    ensures Count(Where(w.ledger.reservations, Alive(now)), OpenedIn(key, win)) + Count(w.bills, BilledFrom(key, win))
         <= CountSince(w.ledger, key, BoundOf(win, now), now)
  {
    var since := BoundOf(win, now);
    forall t: DateTime | win.Contains(t) ensures AtOrAfter(t, since) {
      BoundsCutWindows(now, t);
    }
    var rows := w.ledger.reservations;
    WhereTwice(rows, Alive(now), OpenedIn(key, win), OpenedInAlive(key, win, now));
    CountMono(rows, OpenedInAlive(key, win, now), ActiveSince(key, since, now));
    forall i | 0 <= i < |w.bills| && BilledFrom(key, win)(w.bills[i])
      ensures UsedSince(key, since)(w.ledger.usage[i])
    {
      assert BillOk(w.issued, w.bills[i]);
      BeforeIsTransitive(since, w.bills[i].origin.value.createdAt, w.bills[i].row.createdAt);
    }
    CountFacing(w.bills, w.ledger.usage, BilledFrom(key, win), UsedSince(key, since));
  }

  /** Admission adds at most the new reservation to what pruning leaves of a window's load. */
  lemma AdmissionLoad(w: World, r: Reservation, now: DateTime, key: int, win: Window)
    ensures var kept := Where(w.ledger.reservations, Alive(now));
            && Count(kept, OpenedIn(key, win)) <= Count(w.ledger.reservations, OpenedIn(key, win))
            && Count(kept + [r], OpenedIn(key, win))
               == Count(kept, OpenedIn(key, win)) + if OpenedIn(key, win)(r) then 1 else 0
  {
    CountOfSelection(w.ledger.reservations, Alive(now), OpenedIn(key, win));
    CountPush(Where(w.ledger.reservations, Alive(now)), r, OpenedIn(key, win));
  }

  /** An admission into a window with a limit found room there. */
  lemma AdmittedMeansRoom(l: Ledger, key: int, limits: Limits, win: Window, now: DateTime)
    requires FullWindow(l, key, limits, now) == None
    ensures HasRoom(l, key, LimitFor(limits, win), BoundOf(win, now), now)
  {
  }

  lemma ReserveWithinLimit(limits: int -> Limits, w: World, s: Step, key: int, win: Window)
    requires s.DoReserve? && Booked(w) && WithinLimit(limits, w, key, win)
    ensures WithinLimit(limits, Next(limits, w, s), key, win)
  {
    var (l, r) := Reserve(w.ledger, s.key, limits(s.key), s.now, s.ttlSeconds, s.token, s.db);
    var w' := Next(limits, w, s);
    if !r.Admitted? {
      assert w' == w;
    } else {
      assert w'.bills == w.bills;
      assert w'.ledger.reservations == Where(w.ledger.reservations, Alive(s.now)) + [r.reservation];
      AdmissionLoad(w, r.reservation, s.now, key, win);
      if s.key == key && win.Contains(s.now) {
        LoadIsCounted(w, key, win, s.now);
        AdmittedMeansRoom(w.ledger, key, limits(key), win, s.now);
      }
    }
  }

  lemma {:induction false} CountWithout(rows: seq<Reservation>, r: Reservation, p: Reservation -> bool)
    requires Distinct(rows) && r in rows
    ensures Count(rows, p) == Count(Where(rows, OtherToken(r.token)), p) + if p(r) then 1 else 0
  {
    var rest := rows[1..];
    if rows[0] == r {
      forall x | x in rest ensures OtherToken(r.token)(x) {
        var i :| 0 <= i < |rest| && rest[i] == x;
        assert rows[i + 1] == x;
      }
      WhereAll(rest, OtherToken(r.token));
    } else {
      assert Distinct(rest);
      CountWithout(rest, r, p);
      var i :| 0 <= i < |rows| && rows[i] == r;
      var tail := Where(rest, OtherToken(r.token));
      assert ([rows[0]] + tail)[1..] == tail;
    }
  }

  /** A finalization moves a request from open to charged without changing the load of any window. */
  lemma FinalizeKeepsLoad(limits: int -> Limits, w: World, s: Step, key: int, win: Window)
    requires s.DoFinalize? && Booked(w) && Honest(w, s)
    ensures Load(Next(limits, w, s), key, win) == Load(w, key, win)
  {
    var (l, rec) := Finalize(w.ledger, s.spent, s.owner, s.now, s.charge, s.db);
    if rec.Some? {
      var w' := Next(limits, w, s);
      CountPush(w.bills, w'.bills[|w.bills|], BilledFrom(key, win));
      if Given(s.spent) {
        var r :| r in w.ledger.reservations && r.token == s.spent.value;
        assert IssuedRow(w.issued, r);
        CountWithout(w.ledger.reservations, r, OpenedIn(key, win));
      }
    }
  }

  lemma NextWithinLimit(limits: int -> Limits, w: World, s: Step, key: int, win: Window)
    requires Booked(w) && Honest(w, s) && WithinLimit(limits, w, key, win)
    ensures WithinLimit(limits, Next(limits, w, s), key, win)
  {
    match s
    case DoReserve(_, _, _, _, _) => ReserveWithinLimit(limits, w, s, key, win);
    case DoFinalize(_, _, _, _, _) => FinalizeKeepsLoad(limits, w, s, key, win);
    case DoRelease(token, db) =>
      if Release(w.ledger, token, db).1 {
        CountOfSelection(w.ledger.reservations, OtherToken(token.value), OpenedIn(key, win));
      }
    case DoCleanup(now, db) =>
      CountOfSelection(w.ledger.reservations, Alive(now), OpenedIn(key, win));
  }

  /** In every reachable state, for every key, every UTC day and every UTC month: open plus charged stays within the
      limit. */
  lemma {:induction false} WindowLimitHolds(limits: int -> Limits, steps: seq<Step>, key: int, win: Window)
    requires HonestRun(limits, steps)
    ensures WithinLimit(limits, Run(limits, steps), key, win)
  {
    if steps != [] {
      var before := steps[..|steps| - 1];
      RunBooked(limits, before);
      WindowLimitHolds(limits, before, key, win);
      NextWithinLimit(limits, Run(limits, before), steps[|steps| - 1], key, win);
    }
  }

  /** Usage rows dated inside a window exceed its limit by at most what was opened earlier and finalized inside. */
  lemma DatedUsageBound(limits: int -> Limits, steps: seq<Step>, key: int, win: Window)
    requires HonestRun(limits, steps) && LimitFor(limits(key), win).Some?
    ensures var w := Run(limits, steps);
            var limit := LimitFor(limits(key), win).value;
            Count(w.ledger.usage, DatedIn(key, win))
              <= (if limit < 0 then 0 else limit) + Count(w.bills, CarriedInto(key, win))
  {
    var w := Run(limits, steps);
    RunBooked(limits, steps);
    WindowLimitHolds(limits, steps, key, win);
    CountFacing(w.ledger.usage, w.bills, DatedIn(key, win), BillDatedIn(key, win));
    forall b | b in w.bills && BillDatedIn(key, win)(b)
      ensures BilledFrom(key, win)(b) || CarriedInto(key, win)(b)
    {
      assert BillOk(w.issued, b);
    }
    CountCover(w.bills, BillDatedIn(key, win), BilledFrom(key, win), CarriedInto(key, win));
  }

  function OnePerDay(key: int): Limits {
    Limits(Some(1), None)
  }

  const NO_CHARGE: Charge := Charge(1, 0, 0, 0, None)

  const NIGHT: DateTime := Stamp(Date(2024, 2, 29), MICROS_PER_DAY - 1)
  const MORNING: DateTime := Stamp(Date(2024, 3, 1), 0)

  function LateRow(): Reservation { NewReservation("a", 7, NIGHT, 900) }
  function EarlyRow(): Reservation { NewReservation("b", 7, MORNING, 900) }
  function MorningUsage(): UsageRecord { UsageRow(Some(7), MORNING, NO_CHARGE) }

  function TwoOpened(): seq<Step> {
    [] + [DoReserve(7, NIGHT, 900, "a", Commits)] + [DoReserve(7, MORNING, 900, "b", Commits)]
  }

  function Charging(token: string): Step {
    DoFinalize(Some(token), Some(7), MORNING, NO_CHARGE, Commits)
  }

  lemma TwoOpenedAroundMidnight()
    ensures HonestRun(OnePerDay, TwoOpened())
    ensures Run(OnePerDay, TwoOpened()).ledger == Ledger([LateRow(), EarlyRow()], [])
    ensures Run(OnePerDay, TwoOpened()).issued == map["a" := LateRow(), "b" := EarlyRow()]
  {
    var s0, s1 := DoReserve(7, NIGHT, 900, "a", Commits), DoReserve(7, MORNING, 900, "b", Commits);
    Extend(OnePerDay, [], s0);
    assert Run(OnePerDay, [] + [s0]).ledger.reservations == [LateRow()];
    assert Before(MORNING, LateRow().expiresAt) by {
      assert NextDay(NIGHT.date) == MORNING.date;
      assert AddDays(NIGHT.date, 1) == AddDays(MORNING.date, 0);
    }
    assert Where([LateRow()], Alive(MORNING)) == [LateRow()];
    Extend(OnePerDay, [] + [s0], s1);
  }

  lemma ChargeFirst(steps: seq<Step>)
    requires HonestRun(OnePerDay, steps)
    requires Run(OnePerDay, steps).ledger == Ledger([LateRow(), EarlyRow()], [])
    requires Run(OnePerDay, steps).issued == map["a" := LateRow(), "b" := EarlyRow()]
    ensures HonestRun(OnePerDay, steps + [Charging("a")])
    ensures Run(OnePerDay, steps + [Charging("a")]).ledger == Ledger([EarlyRow()], [MorningUsage()])
    ensures Run(OnePerDay, steps + [Charging("a")]).issued == map["a" := LateRow(), "b" := EarlyRow()]
  {
    var rows := [LateRow(), EarlyRow()];
    assert rows[0] == LateRow() && rows[1] == EarlyRow() && rows[1..] == [EarlyRow()];
    Extend(OnePerDay, steps, Charging("a"));
    assert Where([EarlyRow()], OtherToken("a")) == [EarlyRow()];
  }

  lemma ChargeSecond(steps: seq<Step>)
    requires HonestRun(OnePerDay, steps)
    requires Run(OnePerDay, steps).ledger == Ledger([EarlyRow()], [MorningUsage()])
    requires Run(OnePerDay, steps).issued == map["a" := LateRow(), "b" := EarlyRow()]
    ensures HonestRun(OnePerDay, steps + [Charging("b")])
    ensures Run(OnePerDay, steps + [Charging("b")]).ledger.usage == [MorningUsage(), MorningUsage()]
  {
    assert [EarlyRow()][0] == EarlyRow();
    Extend(OnePerDay, steps, Charging("b"));
  }

  /** The excess is real: with a daily limit of one, two usage rows of one key can be dated on the same day. */
  lemma DatedUsageCanExceedLimit() returns (steps: seq<Step>)
    ensures HonestRun(OnePerDay, steps)
    ensures Count(Run(OnePerDay, steps).ledger.usage, DatedIn(7, DayOf(MORNING))) == 2
  {
    TwoOpenedAroundMidnight();
    ChargeFirst(TwoOpened());
    ChargeSecond(TwoOpened() + [Charging("a")]);
    steps := TwoOpened() + [Charging("a")] + [Charging("b")];
    var row := MorningUsage();
    assert [row, row][1..] == [row];
    assert Where([row], DatedIn(7, DayOf(MORNING))) == [row];
  }

  lemma Extend(limits: int -> Limits, steps: seq<Step>, s: Step)
    ensures Run(limits, steps + [s]) == Next(limits, Run(limits, steps), s)
    ensures HonestRun(limits, steps + [s]) <==> HonestRun(limits, steps) && Honest(Run(limits, steps), s)
  {
    assert (steps + [s])[..|steps|] == steps;
  }

  // ----- fates

  /** A step changes the fate of issued tokens only by taking them out of pending. */
  lemma FatesOnlyLeavePending(limits: int -> Limits, w: World, s: Step, t: string)
    requires Booked(w) && Honest(w, s) && t in w.fate
    ensures t in Next(limits, w, s).fate
    ensures w.fate[t] != Pending ==> Next(limits, w, s).fate[t] == w.fate[t]
    ensures Next(limits, w, s).issued[t] == w.issued[t]
    ensures Next(limits, w, s).fate[t] != w.fate[t] ==>
              match Next(limits, w, s).fate[t]
              case Pending => false
              case Finalized => s.DoFinalize? && s.spent == Some(t)
              case Released => s.DoRelease? && s.returned == Some(t)
              case Expired => (s.DoReserve? || s.DoCleanup?) && AtOrAfter(s.now, w.issued[t].expiresAt)
  {
    NextBooked(limits, w, s);
    assert t in w.issued && w.issued[t].token == t;
  }

  lemma {:induction false} FateIsFinal(limits: int -> Limits, steps: seq<Step>, k: nat, t: string)
    requires HonestRun(limits, steps) && k <= |steps|
    requires t in Run(limits, steps[..k]).fate && Run(limits, steps[..k]).fate[t] != Pending
    ensures Fated(Run(limits, steps), t, Run(limits, steps[..k]).fate[t])
    decreases |steps|
  {
    if k < |steps| {
      var before := steps[..|steps| - 1];
      assert before[..k] == steps[..k];
      FateIsFinal(limits, before, k, t);
      RunBooked(limits, before);
      FatesOnlyLeavePending(limits, Run(limits, before), steps[|steps| - 1], t);
    } else {
      assert steps[..k] == steps;
    }
  }

  /** Charged usage rows and finalized tokens correspond one to one; no other token is ever charged. */
  lemma ChargedExactlyOnce(limits: int -> Limits, steps: seq<Step>, t: string)
    requires HonestRun(limits, steps)
    ensures var w := Run(limits, steps);
            && (Fated(w, t, Finalized) <==> Count(w.bills, PaidWith(t)) == 1)
            && (!Fated(w, t, Finalized) ==> Count(w.bills, PaidWith(t)) == 0)
            && RowsOf(w.bills) == w.ledger.usage
            && (t in w.fate ==> (w.fate[t] == Pending <==> Open(w.issued, w.ledger, t)))
  {
    RunBooked(limits, steps);
    var w := Run(limits, steps);
    if Fated(w, t, Finalized) {
      var i :| 0 <= i < |w.bills| && PaidBy(w.bills[i], t);
      OnlyOne(w.bills, i, PaidWith(t));
    } else {
      CountNone(w.bills, PaidWith(t));
    }
  }

  function PaidWith(t: string): Bill -> bool {
    (b: Bill) => PaidBy(b, t)
  }

  function RowsOf(bills: seq<Bill>): seq<UsageRecord> {
    seq(|bills|, i requires 0 <= i < |bills| => bills[i].row)
  }

  lemma {:induction false} OnlyOne(bills: seq<Bill>, i: nat, p: Bill -> bool)
    requires i < |bills| && p(bills[i])
    requires forall j :: 0 <= j < |bills| && j != i ==> !p(bills[j])
    ensures Count(bills, p) == 1
  {
    var front, back := bills[..i], bills[i + 1..];
    CountNone(front, p);
    CountNone(back, p);
    assert bills == front + ([bills[i]] + back);
    WhereAppend(front, [bills[i]] + back, p);
    WhereAppend([bills[i]], back, p);
  }

  /** Once released or expired, a token never pays for usage, whatever follows. */
  lemma SpentTokenNeverCharged(limits: int -> Limits, steps: seq<Step>, k: nat, t: string)
    requires HonestRun(limits, steps) && k <= |steps|
    requires t in Run(limits, steps[..k]).fate
    requires Run(limits, steps[..k]).fate[t] == Released || Run(limits, steps[..k]).fate[t] == Expired
    ensures Count(Run(limits, steps).bills, PaidWith(t)) == 0
    ensures forall owner, now, c, db ::
              Finalize(Run(limits, steps).ledger, Some(t), owner, now, c, db) == (Run(limits, steps).ledger, None)
  {
    FateIsFinal(limits, steps, k, t);
    ChargedExactlyOnce(limits, steps, t);
    RunBooked(limits, steps);
    var w := Run(limits, steps);
    forall r | r in w.ledger.reservations ensures r.token != t {
      assert IssuedRow(w.issued, r);
    }
  }
}
