/** The two quota tables, what one transaction means on them, and the service that runs the transactions. */
module QuotaLedger {
  import opened Rows
  import opened Calendar

  datatype Reservation = Reservation(token: string, apiKeyId: int, createdAt: DateTime, expiresAt: DateTime)

  datatype Charge = Charge(userId: int, promptTokens: int, completionTokens: int, cachedTokens: int,
                           totalTokens: Option<int>)

  datatype UsageRecord = UsageRecord(
    userId: int, apiKeyId: Option<int>, createdAt: DateTime,
    promptTokens: int, completionTokens: int, cachedTokens: int, totalTokens: int)

  datatype Ledger = Ledger(reservations: seq<Reservation>, usage: seq<UsageRecord>)

  datatype Limits = Limits(daily: Option<int>, monthly: Option<int>)

  datatype Kind = Daily | Monthly

  /** How the database treats a transaction: it commits, or it fails and is rolled back whole. */
  datatype Database = Commits | LockedOrBusy | Fails

  datatype ReserveResult =
    | Admitted(reservation: Reservation)
    | QuotaExceeded(kind: Kind, limit: int, retryAfterSeconds: int)
    | ServiceUnavailable
    | Raised

  // ----- row classes

  function UsedSince(key: int, since: DateTime): UsageRecord -> bool {
    (u: UsageRecord) => u.apiKeyId == Some(key) && AtOrAfter(u.createdAt, since)
  }

  function Alive(now: DateTime): Reservation -> bool {
    (r: Reservation) => Before(now, r.expiresAt)
  }

  function ActiveSince(key: int, since: DateTime, now: DateTime): Reservation -> bool {
    (r: Reservation) => r.apiKeyId == key && AtOrAfter(r.createdAt, since) && Before(now, r.expiresAt)
  }

  function OtherToken(token: string): Reservation -> bool {
    (r: Reservation) => r.token != token
  }

  // ----- reading the tables

  /** Usage rows plus unexpired reservations of `key` dated at or after `since`. */
  function CountSince(l: Ledger, key: int, since: DateTime, now: DateTime): nat {
    Count(l.usage, UsedSince(key, since)) + Count(l.reservations, ActiveSince(key, since, now))
  }

  predicate Reached(limit: Option<int>, count: nat) {
    limit.Some? && count >= limit.value
  }

  predicate HasRoom(l: Ledger, key: int, limit: Option<int>, since: DateTime, now: DateTime) {
    limit.Some? ==> CountSince(l, key, since, now) < limit.value
  }

  /** The window that is full, the daily one first. */
  function FullWindow(l: Ledger, key: int, limits: Limits, now: DateTime): (r: Option<Kind>)
    ensures r == None <==> (HasRoom(l, key, limits.daily, DailyMonthlyBounds(now).0, now)
                            && HasRoom(l, key, limits.monthly, DailyMonthlyBounds(now).1, now))
    ensures r == Some(Daily) <==> !HasRoom(l, key, limits.daily, DailyMonthlyBounds(now).0, now)
  {
    var (today, month) := DailyMonthlyBounds(now);
    if Reached(limits.daily, CountSince(l, key, today, now)) then Some(Daily)
    else if Reached(limits.monthly, CountSince(l, key, month, now)) then Some(Monthly)
    else None
  }

  function Rejection(kind: Kind, limits: Limits): ReserveResult
    requires (kind.Daily? ==> limits.daily.Some?) && (kind.Monthly? ==> limits.monthly.Some?)
  {
    match kind
    case Daily => QuotaExceeded(Daily, limits.daily.value, 86400)
    case Monthly => QuotaExceeded(Monthly, limits.monthly.value, 2592000)
  }

  // ----- one transaction each

  function Pruned(l: Ledger, now: DateTime): Ledger {
    l.(reservations := Where(l.reservations, Alive(now)))
  }

  function NewReservation(token: string, key: int, now: DateTime, ttlSeconds: int): Reservation {
    Reservation(token, key, now, AddSeconds(now, ttlSeconds))
  }

  /** Admission as promised to callers: judged on the tables as they stand, before any pruning. */
  function Reserve(l: Ledger, key: int, limits: Limits, now: DateTime, ttlSeconds: int, token: string, db: Database)
    : (Ledger, ReserveResult)
  {
    match db
    case LockedOrBusy => (l, ServiceUnavailable)
    case Fails => (l, Raised)
    case Commits =>
      match FullWindow(l, key, limits, now)
      case Some(kind) => (l, Rejection(kind, limits))
      case None =>
        var r := NewReservation(token, key, now, ttlSeconds);
        (l.(reservations := Where(l.reservations, Alive(now)) + [r]), Admitted(r))
  }

  /** A token argument that is absent or empty counts as no token. */
  predicate Given(token: Option<string>) {
    token.Some? && token.value != ""
  }

  predicate Holds(l: Ledger, token: string) {
    exists r :: r in l.reservations && r.token == token
  }

  function UsageRow(key: Option<int>, now: DateTime, c: Charge): UsageRecord {
    UsageRecord(c.userId, key, now, c.promptTokens, c.completionTokens, c.cachedTokens,
                if c.totalTokens.Some? then c.totalTokens.value else c.promptTokens + c.completionTokens)
  }

  function WithoutToken(l: Ledger, token: string): Ledger {
    l.(reservations := Where(l.reservations, OtherToken(token)))
  }

  function Finalize(l: Ledger, token: Option<string>, key: Option<int>, now: DateTime, c: Charge, db: Database)
    : (r: (Ledger, Option<UsageRecord>))
    ensures r.1 == None ==> r.0 == l
  {
    if db != Commits || (Given(token) && !Holds(l, token.value)) then (l, None)
    else
      var row := UsageRow(key, now, c);
      var kept := if Given(token) then WithoutToken(l, token.value) else l;
      (kept.(usage := l.usage + [row]), Some(row))
  }

  function Release(l: Ledger, token: Option<string>, db: Database): (r: (Ledger, bool))
    ensures !r.1 ==> r.0 == l
  {
    if db != Commits || !Given(token) || !Holds(l, token.value) then (l, false)
    else (WithoutToken(l, token.value), true)
  }

  function Cleanup(l: Ledger, now: DateTime, db: Database): (Ledger, int) {
    if db != Commits then (l, 0)
    else (Pruned(l, now), |l.reservations| - |Pruned(l, now).reservations|)
  }

  // ----- pruning and counting

  /** Rows that a prune at `now` removes are rows that a count at `now` ignores. */
  lemma PruneInvisible(l: Ledger, key: int, limits: Limits, since: DateTime, now: DateTime)
    ensures CountSince(Pruned(l, now), key, since, now) == CountSince(l, key, since, now)
    ensures FullWindow(Pruned(l, now), key, limits, now) == FullWindow(l, key, limits, now)
  {
    forall s: DateTime
      ensures CountSince(Pruned(l, now), key, s, now) == CountSince(l, key, s, now)
    {
      WhereTwice(l.reservations, Alive(now), ActiveSince(key, s, now), ActiveSince(key, s, now));
    }
  }

  /** Deleting by token changes nothing exactly when no reservation holds the token. */
  lemma DeleteCount(l: Ledger, token: string)
    ensures |WithoutToken(l, token).reservations| == |l.reservations| <==> !Holds(l, token)
    ensures !Holds(l, token) ==> WithoutToken(l, token) == l
  {
    if Holds(l, token) {
      var r :| r in l.reservations && r.token == token;
      ShorterWithout(l.reservations, OtherToken(token), r);
    } else {
      WhereAll(l.reservations, OtherToken(token));
    }
  }

  lemma {:induction false} ShorterWithout(rows: seq<Reservation>, p: Reservation -> bool, r: Reservation)
    requires r in rows && !p(r)
    ensures |Where(rows, p)| < |rows|
  {
    if rows[0] != r {
      ShorterWithout(rows[1..], p, r);
    }
  }

  /** What the transaction finds full after pruning, the unpruned check reports, and admission is refused for. */
  lemma ReserveAgreesWithCheck(l: Ledger, key: int, limits: Limits, now: DateTime, ttl: int, token: string)
    ensures var (l', r) := Reserve(l, key, limits, now, ttl, token, Commits);
            var inside := FullWindow(Pruned(l, now), key, limits, now);
            && inside == FullWindow(l, key, limits, now)
            && (inside == None <==> r.Admitted?)
            && (inside != None ==> r == Rejection(inside.value, limits) && l' == l)
            && (r.Admitted? ==> l'.usage == l.usage
                                && l'.reservations == Pruned(l, now).reservations + [r.reservation])
  {
    PruneInvisible(l, key, limits, now, now);
  }

  /** An admission with a positive lifetime takes exactly one slot of its own day and of its own month. */
  lemma AdmissionTakesOneSlot(l: Ledger, key: int, limits: Limits, now: DateTime, ttl: int, token: string, other: int)
    requires ttl > 0
    requires Reserve(l, key, limits, now, ttl, token, Commits).1.Admitted?
    ensures var l' := Reserve(l, key, limits, now, ttl, token, Commits).0;
            var (today, month) := DailyMonthlyBounds(now);
            && CountSince(l', key, today, now) == CountSince(l, key, today, now) + 1
            && CountSince(l', key, month, now) == CountSince(l, key, month, now) + 1
            && (other != key ==> (CountSince(l', other, today, now) == CountSince(l, other, today, now)
                                  && CountSince(l', other, month, now) == CountSince(l, other, month, now)))
  {
    var r := NewReservation(token, key, now, ttl);
    var (today, month) := DailyMonthlyBounds(now);
    PruneInvisible(l, key, limits, today, now);
    PruneInvisible(l, key, limits, month, now);
    PruneInvisible(l, other, limits, today, now);
    PruneInvisible(l, other, limits, month, now);
    var kept := Where(l.reservations, Alive(now));
    CountPush(kept, r, ActiveSince(key, today, now));
    CountPush(kept, r, ActiveSince(key, month, now));
    CountPush(kept, r, ActiveSince(other, today, now));
    CountPush(kept, r, ActiveSince(other, month, now));
  }

  // ----- the same, said of the rows themselves

  /** Usage rows of `key` dated in the window or later, by position. */
  ghost function UsedIn(l: Ledger, key: int, win: Window): set<int> {
    set i | 0 <= i < |l.usage| && l.usage[i].apiKeyId == Some(key)
            && (win.Contains(l.usage[i].createdAt) || win.EndsBefore(l.usage[i].createdAt))
  }

  /** Reservations of `key` that are unexpired at `now` and dated in the window or later, by position. */
  ghost function OpenIn(l: Ledger, key: int, win: Window, now: DateTime): set<int> {
    set i | 0 <= i < |l.reservations| && l.reservations[i].apiKeyId == key
            && (win.Contains(l.reservations[i].createdAt) || win.EndsBefore(l.reservations[i].createdAt))
            && Instant(now) < Instant(l.reservations[i].expiresAt)
  }

  /** The window's limit, if it has one, is used up. */
  ghost predicate UsedUp(l: Ledger, key: int, limit: Option<int>, win: Window, now: DateTime) {
    limit.Some? && |UsedIn(l, key, win)| + |OpenIn(l, key, win, now)| >= limit.value
  }

  /** The first window that is used up, the day before the month, and what a client is told about it. */
  ghost function Verdict(l: Ledger, key: int, limits: Limits, now: DateTime): Option<ReserveResult> {
    if UsedUp(l, key, limits.daily, Day(now.date), now) then Some(QuotaExceeded(Daily, limits.daily.value, 86400))
    else if UsedUp(l, key, limits.monthly, Month(now.date.year, now.date.month), now) then
      Some(QuotaExceeded(Monthly, limits.monthly.value, 2592000))
    else None
  }

  lemma CountsAgree(l: Ledger, key: int, win: Window, since: DateTime, now: DateTime)
    requires forall t: DateTime :: AtOrAfter(t, since) <==> win.Contains(t) || win.EndsBefore(t)
    ensures CountSince(l, key, since, now) == |UsedIn(l, key, win)| + |OpenIn(l, key, win, now)|
  {
    CountIsPositions(l.usage, UsedSince(key, since));
    CountIsPositions(l.reservations, ActiveSince(key, since, now));
    assert Positions(l.usage, UsedSince(key, since)) == UsedIn(l, key, win);
    forall i | 0 <= i < |l.reservations|
      ensures Before(now, l.reservations[i].expiresAt) <==> Instant(now) < Instant(l.reservations[i].expiresAt)
    {
      BeforeMeansEarlier(now, l.reservations[i].expiresAt);
    }
    assert Positions(l.reservations, ActiveSince(key, since, now)) == OpenIn(l, key, win, now);
  }

  /** The check reports exactly what the rows themselves say. */
  lemma CheckReadsRows(l: Ledger, key: int, limits: Limits, now: DateTime)
    ensures FullWindow(l, key, limits, now) ==
              match Verdict(l, key, limits, now)
              case Some(QuotaExceeded(kind, _, _)) => Some(kind)
              case _ => None
  {
    var (today, month) := DailyMonthlyBounds(now);
    forall t: DateTime
      ensures AtOrAfter(t, today) <==> Day(now.date).Contains(t) || Day(now.date).EndsBefore(t)
      ensures AtOrAfter(t, month) <==> MonthOf(now).Contains(t) || MonthOf(now).EndsBefore(t)
    {
      BoundsCutWindows(now, t);
    }
    CountsAgree(l, key, Day(now.date), today, now);
    CountsAgree(l, key, MonthOf(now), month, now);
  }

  /** The unexpired rows, in their order. */
  function Unexpired(now: DateTime): Reservation -> bool {
    (r: Reservation) => Instant(now) < Instant(r.expiresAt)
  }

  /** An admission: expired rows go, everything else stays, and one row is added. */
  ghost predicate Admits(before: Ledger, after: Ledger, key: int, now: DateTime, ttlSeconds: int, token: string,
                         row: Reservation) {
    && after.usage == before.usage
    && after.reservations == Where(before.reservations, Unexpired(now)) + [row]
    && row.token == token && row.apiKeyId == key && row.createdAt == now
    && Instant(row.expiresAt) == Instant(now) + ttlSeconds * 1_000_000
  }

  /** A reservation is refused exactly when a configured window is used up, and then nothing changes. */
  lemma ReservationLaw(l: Ledger, key: int, limits: Limits, now: DateTime, ttl: int, token: string)
    ensures var (after, r) := Reserve(l, key, limits, now, ttl, token, Commits);
            match Verdict(l, key, limits, now)
            case Some(refusal) => r == refusal && after == l
            case None => r.Admitted? && Admits(l, after, key, now, ttl, token, r.reservation)
  {
    CheckReadsRows(l, key, limits, now);
    AddSecondsMoves(now, ttl);
    forall r | r in l.reservations ensures Alive(now)(r) <==> Unexpired(now)(r) {
      BeforeMeansEarlier(now, r.expiresAt);
    }
    WhereSame(l.reservations, Alive(now), Unexpired(now));
  }

  /** The row counts for the window. */
  predicate Counts(u: UsageRecord, key: int, win: Window) {
    u.apiKeyId == Some(key) && (win.Contains(u.createdAt) || win.EndsBefore(u.createdAt))
  }

  lemma UsedInIsCount(l: Ledger, key: int, win: Window)
    ensures |UsedIn(l, key, win)| == Count(l.usage, (u: UsageRecord) => Counts(u, key, win))
  {
    var p := (u: UsageRecord) => Counts(u, key, win);
    CountIsPositions(l.usage, p);
    assert Positions(l.usage, p) == UsedIn(l, key, win);
  }

  /** A usage row of another key, or one dated before both windows, changes no verdict, wherever it stands. */
  lemma UnrelatedUsageIsIgnored(l: Ledger, a: seq<UsageRecord>, u: UsageRecord, b: seq<UsageRecord>, key: int,
                                limits: Limits, now: DateTime)
    requires l.usage == a + b
    requires !Counts(u, key, Day(now.date)) && !Counts(u, key, Month(now.date.year, now.date.month))
    ensures Verdict(l.(usage := a + [u] + b), key, limits, now) == Verdict(l, key, limits, now)
  {
    UnrelatedRow(l, a, u, b, key, Day(now.date), now);
    UnrelatedRow(l, a, u, b, key, Month(now.date.year, now.date.month), now);
  }

  lemma UnrelatedRow(l: Ledger, a: seq<UsageRecord>, u: UsageRecord, b: seq<UsageRecord>, key: int, win: Window,
                     now: DateTime)
    requires l.usage == a + b && !Counts(u, key, win)
    ensures |UsedIn(l.(usage := a + [u] + b), key, win)| == |UsedIn(l, key, win)|
    ensures OpenIn(l.(usage := a + [u] + b), key, win, now) == OpenIn(l, key, win, now)
  {
    var p := (x: UsageRecord) => Counts(x, key, win);
    UsedInIsCount(l, key, win);
    UsedInIsCount(l.(usage := a + [u] + b), key, win);
    CountPush(a, u, p);
    WhereAppend(a, b, p);
    WhereAppend(a + [u], b, p);
  }

  /** The reservation counts for the window. */
  predicate Holding(r: Reservation, key: int, win: Window, now: DateTime) {
    && r.apiKeyId == key
    && (win.Contains(r.createdAt) || win.EndsBefore(r.createdAt))
    && Instant(now) < Instant(r.expiresAt)
  }

  lemma OpenInIsCount(l: Ledger, key: int, win: Window, now: DateTime)
    ensures |OpenIn(l, key, win, now)| == Count(l.reservations, (r: Reservation) => Holding(r, key, win, now))
  {
    var p := (r: Reservation) => Holding(r, key, win, now);
    CountIsPositions(l.reservations, p);
    assert Positions(l.reservations, p) == OpenIn(l, key, win, now);
  }

  lemma UnrelatedReservation(l: Ledger, a: seq<Reservation>, r: Reservation, b: seq<Reservation>, key: int, win: Window,
                             now: DateTime)
    requires l.reservations == a + b && !Holding(r, key, win, now)
    ensures |OpenIn(l.(reservations := a + [r] + b), key, win, now)| == |OpenIn(l, key, win, now)|
    ensures UsedIn(l.(reservations := a + [r] + b), key, win) == UsedIn(l, key, win)
  {
    var p := (x: Reservation) => Holding(x, key, win, now);
    OpenInIsCount(l, key, win, now);
    OpenInIsCount(l.(reservations := a + [r] + b), key, win, now);
    CountPush(a, r, p);
    WhereAppend(a, b, p);
    WhereAppend(a + [r], b, p);
  }

  /** A reservation of another key, an expired one, or one dated before both windows changes no verdict. */
  lemma UnrelatedReservationIsIgnored(l: Ledger, a: seq<Reservation>, r: Reservation, b: seq<Reservation>, key: int,
                                      limits: Limits, now: DateTime)
    requires l.reservations == a + b
    requires !Holding(r, key, Day(now.date), now) && !Holding(r, key, Month(now.date.year, now.date.month), now)
    ensures Verdict(l.(reservations := a + [r] + b), key, limits, now) == Verdict(l, key, limits, now)
  {
    UnrelatedReservation(l, a, r, b, key, Day(now.date), now);
    UnrelatedReservation(l, a, r, b, key, Month(now.date.year, now.date.month), now);
  }

  /** A finalization that commits pays, with a token exactly if some row holds it, without one always; paying removes
      the rows of the token, no other, and adds one usage row, field by field; otherwise nothing changes. */
  ghost predicate FinalizationTells(before: Ledger, after: Ledger, rec: Option<UsageRecord>, token: Option<string>,
                                    key: Option<int>, now: DateTime, c: Charge, db: Database) {
    var spends := token.Some? && token.value != "";
    && (rec.Some? <==> db == Commits && (spends ==> exists r :: r in before.reservations && r.token == token.value))
    && (rec == None ==> after == before)
    && (rec.Some? ==>
          && after.usage == before.usage + [rec.value]
          && after.reservations == (if !spends then before.reservations
                                    else Where(before.reservations, (r: Reservation) => r.token != token.value))
          && rec.value.userId == c.userId && rec.value.apiKeyId == key && rec.value.createdAt == now
          && rec.value.promptTokens == c.promptTokens && rec.value.completionTokens == c.completionTokens
          && rec.value.cachedTokens == c.cachedTokens
          && rec.value.totalTokens == (match c.totalTokens
                                       case Some(total) => total
                                       case None => c.promptTokens + c.completionTokens))
  }

  lemma FinalizationLaw(l: Ledger, token: Option<string>, key: Option<int>, now: DateTime, c: Charge, db: Database)
    ensures var (after, rec) := Finalize(l, token, key, now, c, db);
            FinalizationTells(l, after, rec, token, key, now, c, db)
  {
    if Given(token) {
      WhereSame(l.reservations, OtherToken(token.value), (r: Reservation) => r.token != token.value);
    }
  }

  /** A release that commits removes the rows of its token, no other, and tells whether there were any. */
  ghost predicate ReleaseTells(before: Ledger, after: Ledger, released: bool, token: Option<string>, db: Database) {
    && (released <==> db == Commits && token.Some? && token.value != ""
                      && exists r :: r in before.reservations && r.token == token.value)
    && after.usage == before.usage
    && after.reservations == (if released then Where(before.reservations, (r: Reservation) => r.token != token.value)
                              else before.reservations)
  }

  lemma ReleaseLaw(l: Ledger, token: Option<string>, db: Database)
    ensures var (after, released) := Release(l, token, db); ReleaseTells(l, after, released, token, db)
  {
    if Given(token) {
      WhereSame(l.reservations, OtherToken(token.value), (r: Reservation) => r.token != token.value);
    }
  }

  /** A clean-up that commits removes the expired rows, no other, and tells how many. */
  ghost predicate CleanupTells(before: Ledger, after: Ledger, removed: int, now: DateTime, db: Database) {
    && after.usage == before.usage
    && after.reservations == (if db == Commits then Where(before.reservations, Unexpired(now)) else before.reservations)
    && removed == |before.reservations| - |after.reservations|
  }

  lemma CleanupLaw(l: Ledger, now: DateTime, db: Database)
    ensures var (after, removed) := Cleanup(l, now, db); CleanupTells(l, after, removed, now, db)
  {
    forall r | r in l.reservations ensures Alive(now)(r) <==> Unexpired(now)(r) {
      BeforeMeansEarlier(now, r.expiresAt);
    }
    WhereSame(l.reservations, Alive(now), Unexpired(now));
  }

  // ----- the service

  /** Default lifetime: a minute past the longest harness run, and never under fifteen minutes; no longer than that. */
  function DefaultTtl(harnessTimeoutSeconds: int): (ttl: int)
    ensures ttl >= harnessTimeoutSeconds + 60 && ttl >= 900
    ensures ttl == harnessTimeoutSeconds + 60 || ttl == 900
  {
    if harnessTimeoutSeconds + 60 >= 900 then harnessTimeoutSeconds + 60 else 900
  }

  class QuotaService {
    var reservations: seq<Reservation>
    var usage: seq<UsageRecord>

    ghost function State(): Ledger
      reads this
    {
      Ledger(reservations, usage)
    }

    constructor ()
      ensures State() == Ledger([], [])
    {
      reservations := [];
      usage := [];
    }

    method CountRowsSince(key: int, since: DateTime, now: DateTime) returns (n: nat)
      ensures n == CountSince(State(), key, since, now)
    {
      n := Count(usage, UsedSince(key, since)) + Count(reservations, ActiveSince(key, since, now));
    }

    method IsQuotaExceeded(key: int, limits: Limits, now: DateTime) returns (exceeded: bool, kind: Option<Kind>)
      ensures kind == FullWindow(State(), key, limits, now)
      ensures kind == match Verdict(State(), key, limits, now)
                      case Some(QuotaExceeded(kind, _, _)) => Some(kind)
                      case _ => None
      ensures exceeded <==> Verdict(State(), key, limits, now) != None
    {
      CheckReadsRows(State(), key, limits, now);
      if limits.daily == None && limits.monthly == None {
        return false, None;
      }
      var (today, month) := DailyMonthlyBounds(now);
      if limits.daily != None {
        var n := CountRowsSince(key, today, now);
        if n >= limits.daily.value {
          return true, Some(Daily);
        }
      }
      if limits.monthly != None {
        var n := CountRowsSince(key, month, now);
        if n >= limits.monthly.value {
          return true, Some(Monthly);
        }
      }
      return false, None;
    }

    /** Walks the configured windows in order and reports the first full one. */
    method EnforceReservationLimits(key: int, limits: Limits, now: DateTime) returns (full: Option<ReserveResult>)
      ensures full == match FullWindow(State(), key, limits, now)
                      case None => None
                      case Some(kind) => Some(Rejection(kind, limits))
      ensures full == Verdict(State(), key, limits, now)
    {
      CheckReadsRows(State(), key, limits, now);
      var (today, month) := DailyMonthlyBounds(now);
      var checks := [(Daily, limits.daily, today, 86400), (Monthly, limits.monthly, month, 2592000)];
      var i := 0;
      while i < |checks|
        invariant 0 <= i <= 2
        invariant forall j :: 0 <= j < i ==> HasRoom(State(), key, checks[j].1, checks[j].2, now)
      {
        var (kind, limit, since, retryAfter) := checks[i];
        if limit != None {
          var n := CountRowsSince(key, since, now);
          if n >= limit.value {
            assert i == 1 ==> HasRoom(State(), key, checks[0].1, checks[0].2, now);
            return Some(QuotaExceeded(kind, limit.value, retryAfter));
          }
        }
        i := i + 1;
      }
      assert HasRoom(State(), key, checks[0].1, checks[0].2, now);
      assert HasRoom(State(), key, checks[1].1, checks[1].2, now);
      full := None;
    }

    /** One immediate transaction: prune, judge, insert; anything but an admission rolls it all back. */
    method ReserveQuota(key: int, limits: Limits, now: DateTime, ttlSeconds: int, token: string, db: Database)
      returns (r: ReserveResult)
      modifies this
      ensures (State(), r) == Reserve(old(State()), key, limits, now, ttlSeconds, token, db)
      ensures db != Commits ==>
                State() == old(State()) && r == if db == LockedOrBusy then ServiceUnavailable else Raised
      ensures db == Commits ==>
                match Verdict(old(State()), key, limits, now)
                case Some(refusal) => r == refusal && State() == old(State())
                case None => r.Admitted?
                             && Admits(old(State()), State(), key, now, ttlSeconds, token, r.reservation)
    {
      ReservationLaw(State(), key, limits, now, ttlSeconds, token);
      var snapshot := reservations;
      ghost var before := State();
      if db == LockedOrBusy {
        return ServiceUnavailable;
      }
      reservations := Where(reservations, Alive(now));
      PruneInvisible(before, key, limits, now, now);
      assert State() == Pruned(before, now);
      var full := EnforceReservationLimits(key, limits, now);
      if db == Fails {
        reservations := snapshot;
        return Raised;
      }
      if full != None {
        reservations := snapshot;
        return full.value;
      }
      var row := Reservation(token, key, now, AddSeconds(now, ttlSeconds));
      reservations := reservations + [row];
      r := Admitted(row);
    }

    method FinalizeReservation(token: Option<string>, key: Option<int>, now: DateTime, c: Charge, db: Database)
      returns (rec: Option<UsageRecord>)
      modifies this
      ensures (State(), rec) == Finalize(old(State()), token, key, now, c, db)
      ensures FinalizationTells(old(State()), State(), rec, token, key, now, c, db)
    {
      FinalizationLaw(State(), token, key, now, c, db);
      var snapshot := (reservations, usage);
      ghost var before := State();
      if Given(token) {
        DeleteCount(before, token.value);
        var left := Where(reservations, OtherToken(token.value));
        var rowcount := |reservations| - |left|;
        reservations := left;
        if rowcount == 0 {
          reservations := snapshot.0;
          return None;
        }
      }
      var total := if c.totalTokens.Some? then c.totalTokens.value else c.promptTokens + c.completionTokens;
      var row := UsageRecord(c.userId, key, now, c.promptTokens, c.completionTokens, c.cachedTokens, total);
      usage := usage + [row];
      if db != Commits {
        reservations, usage := snapshot.0, snapshot.1;
        return None;
      }
      rec := Some(row);
    }

    method ReleaseReservation(token: Option<string>, db: Database) returns (released: bool)
      modifies this
      ensures (State(), released) == Release(old(State()), token, db)
      ensures ReleaseTells(old(State()), State(), released, token, db)
    {
      ReleaseLaw(State(), token, db);
      if !Given(token) {
        return false;
      }
      DeleteCount(State(), token.value);
      var left := Where(reservations, OtherToken(token.value));
      if db != Commits {
        return false;
      }
      released := |left| < |reservations|;
      reservations := left;
    }

    method CleanupExpiredReservations(now: DateTime, db: Database) returns (removed: int)
      modifies this
      ensures (State(), removed) == Cleanup(old(State()), now, db)
      ensures CleanupTells(old(State()), State(), removed, now, db)
    {
      CleanupLaw(State(), now, db);
      if db != Commits {
        return 0;
      }
      var left := Where(reservations, Alive(now));
      removed := |reservations| - |left|;
      reservations := left;
    }
  }
}
