/** Whole runs of the quota ledger: any number of clients, transactions in any order, clocks read before the lock. */
module QuotaRuns {
  import opened Rows
  import opened Calendar
  import opened QuotaLedger

  /** One committed or failed transaction of some client. `now` values need not grow along a run. */
  datatype Step =
    | DoReserve(key: int, now: DateTime, ttlSeconds: int, token: string, db: Database)
    | DoFinalize(spent: Option<string>, owner: Option<int>, now: DateTime, charge: Charge, db: Database)
    | DoRelease(returned: Option<string>, db: Database)
    | DoCleanup(now: DateTime, db: Database)

  datatype Fate = Pending | Finalized | Released | Expired

  /** A usage row together with the reservation it was paid with, if any. */
  datatype Bill = Bill(origin: Option<Reservation>, row: UsageRecord)

  /** The tables, and what is remembered about how they came about. */
  datatype World = World(
    ledger: Ledger, bills: seq<Bill>, issued: map<string, Reservation>, fate: map<string, Fate>)

  const Start: World := World(Ledger([], []), [], map[], map[])

  /** Every pending token whose row has left the table gets fate `gone`. */
  function Settle(w: World, l: Ledger, gone: Fate): (f: map<string, Fate>)
    ensures f.Keys == w.fate.Keys
  {
    map t | t in w.fate :: if w.fate[t] == Pending && !Open(w.issued, l, t) then gone else w.fate[t]
  }

  predicate Open(issued: map<string, Reservation>, l: Ledger, token: string) {
    token in issued && issued[token] in l.reservations
  }

  function Next(limits: int -> Limits, w: World, step: Step): World {
    match step
    case DoReserve(key, now, ttl, token, db) =>
      var (l, r) := Reserve(w.ledger, key, limits(key), now, ttl, token, db);
      if r.Admitted? then
        World(l, w.bills, w.issued[token := r.reservation], Settle(w, Pruned(w.ledger, now), Expired)[token := Pending])
      else w.(ledger := l)
    case DoFinalize(token, key, now, c, db) =>
      var (l, rec) := Finalize(w.ledger, token, key, now, c, db);
      if rec.None? then w.(ledger := l)
      else
        var origin := if Given(token) && token.value in w.issued then Some(w.issued[token.value]) else None;
        World(l, w.bills + [Bill(origin, rec.value)], w.issued, Settle(w, l, Finalized))
    case DoRelease(token, db) =>
      var (l, ok) := Release(w.ledger, token, db);
      w.(ledger := l, fate := Settle(w, l, Released))
    case DoCleanup(now, db) =>
      var (l, n) := Cleanup(w.ledger, now, db);
      w.(ledger := l, fate := Settle(w, l, Expired))
  }

  /** Tokens are fresh; a finalization names the key that reserved and is not dated before the reservation. */
  predicate Honest(w: World, step: Step) {
    match step
    case DoReserve(key, now, ttl, token, db) => token != "" && token !in w.issued
    case DoFinalize(token, key, now, c, db) =>
      if Given(token) then
        token.value in w.issued ==>
          key == Some(w.issued[token.value].apiKeyId) && AtOrAfter(now, w.issued[token.value].createdAt)
      else key == None
    case _ => true
  }

  function Run(limits: int -> Limits, steps: seq<Step>): World {
    if steps == [] then Start
    else Next(limits, Run(limits, steps[..|steps| - 1]), steps[|steps| - 1])
  }

  predicate HonestRun(limits: int -> Limits, steps: seq<Step>) {
    steps != [] ==>
      && HonestRun(limits, steps[..|steps| - 1])
      && Honest(Run(limits, steps[..|steps| - 1]), steps[|steps| - 1])
  }

  // ----- what a window holds

  function OpenedIn(key: int, win: Window): Reservation -> bool {
    (r: Reservation) => r.apiKeyId == key && win.Contains(r.createdAt)
  }

  function BilledFrom(key: int, win: Window): Bill -> bool {
    (b: Bill) => b.origin.Some? && b.origin.value.apiKeyId == key && win.Contains(b.origin.value.createdAt)
  }

  function DatedIn(key: int, win: Window): UsageRecord -> bool {
    (u: UsageRecord) => u.apiKeyId == Some(key) && win.Contains(u.createdAt)
  }

  function BillDatedIn(key: int, win: Window): Bill -> bool {
    (b: Bill) => DatedIn(key, win)(b.row)
  }

  /** Opened before the window, finalized inside it. */
  function CarriedInto(key: int, win: Window): Bill -> bool {
    (b: Bill) => BillDatedIn(key, win)(b) && b.origin.Some?
                 && !win.Contains(b.origin.value.createdAt) && !win.EndsBefore(b.origin.value.createdAt)
  }

  /** Requests of `key` admitted inside the window that are still open or have been charged. */
  function Load(w: World, key: int, win: Window): nat {
    Count(w.ledger.reservations, OpenedIn(key, win)) + Count(w.bills, BilledFrom(key, win))
  }

  function LimitFor(limits: Limits, win: Window): Option<int> {
    match win
    case Day(_) => limits.daily
    case Month(_, _) => limits.monthly
  }

  /** A limit below one admits nothing at all. */
  predicate WithinLimit(limits: int -> Limits, w: World, key: int, win: Window) {
    var limit := LimitFor(limits(key), win);
    limit.Some? ==> Load(w, key, win) == 0 || Load(w, key, win) <= limit.value
  }

  // ----- the bookkeeping agrees with the tables

  predicate Distinct(rows: seq<Reservation>) {
    forall i, j :: 0 <= i < j < |rows| ==> rows[i].token != rows[j].token
  }

  predicate IssuedRow(issued: map<string, Reservation>, r: Reservation) {
    r.token in issued && issued[r.token] == r
  }

  /** Every row was issued, under a token of its own. */
  predicate RowsOk(issued: map<string, Reservation>, l: Ledger) {
    && Distinct(l.reservations)
    && (forall r :: r in l.reservations ==> IssuedRow(issued, r))
    && (forall t :: t in issued ==> t != "" && issued[t].token == t)
  }

  /** A token is pending exactly while its row is in the table. */
  predicate FatesOk(w: World) {
    && w.issued.Keys == w.fate.Keys
    && (forall t :: t in w.fate ==> (w.fate[t] == Pending <==> Open(w.issued, w.ledger, t)))
  }

  /** Bills run parallel to the usage table. */
  predicate BillsOk(w: World) {
    && |w.bills| == |w.ledger.usage|
    && (forall i :: 0 <= i < |w.bills| ==> w.bills[i].row == w.ledger.usage[i])
    && (forall b :: b in w.bills ==> BillOk(w.issued, b))
  }

  predicate BillOk(issued: map<string, Reservation>, b: Bill) {
    match b.origin
    case None => b.row.apiKeyId == None
    case Some(r) =>
      IssuedRow(issued, r) && b.row.apiKeyId == Some(r.apiKeyId) && AtOrAfter(b.row.createdAt, r.createdAt)
  }

  predicate PaidBy(b: Bill, token: string) {
    b.origin.Some? && b.origin.value.token == token
  }

  /** Finalized tokens and token-backed usage rows pair off one to one. */
  ghost predicate PaymentsOk(w: World) {
    && (forall i, j, t :: 0 <= i < j < |w.bills| && PaidBy(w.bills[i], t) ==> !PaidBy(w.bills[j], t))
    && (forall i :: 0 <= i < |w.bills| && w.bills[i].origin.Some?
          ==> Fated(w, w.bills[i].origin.value.token, Finalized))
    && (forall t :: Fated(w, t, Finalized) ==> exists i :: 0 <= i < |w.bills| && PaidBy(w.bills[i], t))
  }

  predicate Fated(w: World, t: string, f: Fate) {
    t in w.fate && w.fate[t] == f
  }

  ghost predicate Booked(w: World) {
    RowsOk(w.issued, w.ledger) && FatesOk(w) && BillsOk(w) && PaymentsOk(w)
  }

  lemma {:induction false} WhereKeepsDistinct(rows: seq<Reservation>, p: Reservation -> bool)
    requires Distinct(rows)
    ensures Distinct(Where(rows, p))
  {
    if rows != [] {
      assert Distinct(rows[1..]);
      WhereKeepsDistinct(rows[1..], p);
      var rest := Where(rows[1..], p);
      forall x | x in rest
        ensures x.token != rows[0].token
      {
        var i :| 0 <= i < |rows[1..]| && rows[1..][i] == x;
        assert rows[i + 1] == x;
      }
    }
  }

  lemma AdmitBooked(w: World, r: Reservation)
    requires Booked(w) && r.token != "" && r.token !in w.issued
    ensures Booked(World(w.ledger.(reservations := w.ledger.reservations + [r]), w.bills,
                         w.issued[r.token := r], w.fate[r.token := Pending]))
  {
    var kept := w.ledger.reservations;
    var l := w.ledger.(reservations := kept + [r]);
    var w' := World(l, w.bills, w.issued[r.token := r], w.fate[r.token := Pending]);
    forall i | 0 <= i < |kept| ensures l.reservations[i].token != r.token {
      assert kept[i] in kept;
      assert IssuedRow(w.issued, kept[i]);
    }
    assert RowsOk(w'.issued, l);
    assert l.reservations[|kept|] == r;
    forall t | t in w.fate ensures Open(w.issued, w.ledger, t) <==> Open(w'.issued, l, t) {}
    assert FatesOk(w');
    SettlePayments(w, w');
  }

  /** Payments survive any change that leaves the bills and the set of finalized tokens alone. */
  lemma SettlePayments(w: World, w': World)
    requires PaymentsOk(w) && w'.bills == w.bills
    requires forall t :: Fated(w, t, Finalized) <==> Fated(w', t, Finalized)
    ensures PaymentsOk(w')
  {
  }

  lemma ShrinkBooked(w: World, p: Reservation -> bool, gone: Fate)
    requires Booked(w) && gone != Pending && gone != Finalized
    ensures var l := w.ledger.(reservations := Where(w.ledger.reservations, p));
            Booked(w.(ledger := l, fate := Settle(w, l, gone)))
  {
    var l := w.ledger.(reservations := Where(w.ledger.reservations, p));
    WhereKeepsDistinct(w.ledger.reservations, p);
    var w' := w.(ledger := l, fate := Settle(w, l, gone));
    assert FatesOk(w');
    SettlePayments(w, w');
  }

  lemma BillAdded(w: World, b: Bill, kept: seq<Reservation>)
    requires Booked(w) && BillOk(w.issued, b)
    requires b.origin == None ==> kept == w.ledger.reservations
    requires b.origin.Some? ==> b.origin.value in w.ledger.reservations
                                && kept == Where(w.ledger.reservations, OtherToken(b.origin.value.token))
    ensures var l := Ledger(kept, w.ledger.usage + [b.row]);
            Booked(World(l, w.bills + [b], w.issued, Settle(w, l, Finalized)))
  {
    var l := Ledger(kept, w.ledger.usage + [b.row]);
    var w' := World(l, w.bills + [b], w.issued, Settle(w, l, Finalized));
    if b.origin.Some? {
      WhereKeepsDistinct(w.ledger.reservations, OtherToken(b.origin.value.token));
      assert Fated(w, b.origin.value.token, Pending);
    }
    assert FatesOk(w');
    assert BillsOk(w');
    assert forall t :: Fated(w', t, Finalized) <==> Fated(w, t, Finalized) || PaidBy(b, t);
    assert forall i :: 0 <= i < |w.bills| ==> w'.bills[i] == w.bills[i];
    assert w'.bills[|w.bills|] == b;
  }

  lemma ReserveBooked(limits: int -> Limits, w: World, s: Step)
    requires Booked(w) && Honest(w, s) && s.DoReserve?
    ensures Booked(Next(limits, w, s))
  {
    var (l, r) := Reserve(w.ledger, s.key, limits(s.key), s.now, s.ttlSeconds, s.token, s.db);
    if r.Admitted? {
      var pruned := Pruned(w.ledger, s.now);
      ShrinkBooked(w, Alive(s.now), Expired);
      AdmitBooked(w.(ledger := pruned, fate := Settle(w, pruned, Expired)), r.reservation);
    }
  }

  lemma FinalizeBooked(limits: int -> Limits, w: World, s: Step)
    requires Booked(w) && Honest(w, s) && s.DoFinalize?
    ensures Booked(Next(limits, w, s))
  {
    var (l, rec) := Finalize(w.ledger, s.spent, s.owner, s.now, s.charge, s.db);
    if rec.Some? {
      if Given(s.spent) {
        var r :| r in w.ledger.reservations && r.token == s.spent.value;
        assert IssuedRow(w.issued, r);
      }
      var origin := if Given(s.spent) then Some(w.issued[s.spent.value]) else None;
      BillAdded(w, Bill(origin, rec.value), l.reservations);
    }
  }

  lemma RemovalBooked(limits: int -> Limits, w: World, s: Step)
    requires Booked(w) && (s.DoRelease? || s.DoCleanup?)
    ensures Booked(Next(limits, w, s))
  {
    if s.DoRelease? {
      if Release(w.ledger, s.returned, s.db).1 {
        ShrinkBooked(w, OtherToken(s.returned.value), Released);
      } else {
        assert Settle(w, w.ledger, Released) == w.fate;
      }
    } else {
      ShrinkBooked(w, Alive(s.now), Expired);
      assert Settle(w, w.ledger, Expired) == w.fate;
    }
  }

  /** Every honest step keeps the bookkeeping in agreement with the tables. */
  lemma NextBooked(limits: int -> Limits, w: World, s: Step)
    requires Booked(w) && Honest(w, s)
    ensures Booked(Next(limits, w, s))
  {
    match s
    case DoReserve(_, _, _, _, _) => ReserveBooked(limits, w, s);
    case DoFinalize(_, _, _, _, _) => FinalizeBooked(limits, w, s);
    case _ => RemovalBooked(limits, w, s);
  }
}
