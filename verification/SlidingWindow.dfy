/** The in-memory sliding-window limiter, and the naive limiter it must agree with. */
module SlidingWindow {
  import opened Rows

  /** `BadIndex`: looking at the oldest entry of an empty queue, which happens only for a limit below one. */
  datatype Verdict = Admit | Deny(retryAfter: int) | BadIndex

  /** Truncation toward zero. */
  function Truncate(x: real): int {
    if x >= 0.0 then x.Floor else -((-x).Floor)
  }

  function RetryAfter(oldest: real, window: int, now: real): (r: int)
    ensures r >= 1
  {
    var r := Truncate(oldest + window as real - now) + 1;
    if r < 1 then 1 else r
  }

  // ----- the evicting queue

  /** Drops entries from the front while they are at or before the cutoff. */
  function Evict(q: seq<real>, cutoff: real): seq<real> {
    if q != [] && q[0] <= cutoff then Evict(q[1..], cutoff) else q
  }

  /** The queue splits into `n` entries at or before the cutoff and a rest that starts after it. */
  predicate Cut(q: seq<real>, n: nat, cutoff: real) {
    && n <= |q|
    && (forall k :: 0 <= k < n ==> q[k] <= cutoff)
    && (n < |q| ==> q[n] > cutoff)
  }

  lemma {:induction false} EvictAt(q: seq<real>, n: nat, cutoff: real)
    requires Cut(q, n, cutoff)
    ensures Evict(q, cutoff) == q[n..]
  {
    if n > 0 {
      assert forall k :: 0 <= k < n - 1 ==> q[1..][k] == q[k + 1];
      EvictAt(q[1..], n - 1, cutoff);
    }
  }

  lemma {:induction false} EvictCuts(q: seq<real>, cutoff: real) returns (n: nat)
    ensures Cut(q, n, cutoff) && Evict(q, cutoff) == q[n..]
  {
    if q != [] && q[0] <= cutoff {
      var m := EvictCuts(q[1..], cutoff);
      n := m + 1;
      assert forall k :: 0 < k < n ==> q[k] == q[1..][k - 1];
    } else {
      n := 0;
    }
  }

  function Judge(q: seq<real>, limit: int, window: int, now: real): Verdict {
    if |q| < limit then Admit
    else if q == [] then BadIndex
    else Deny(RetryAfter(q[0], window, now))
  }

  /** One request against one queue: the new queue and the verdict. */
  function Request(q: seq<real>, limit: int, window: int, now: real): (seq<real>, Verdict) {
    var live := Evict(q, now - window as real);
    var v := Judge(live, limit, window, now);
    (if v.Admit? then live + [now] else live, v)
  }

  function Queue(hits: map<string, seq<real>>, key: string): seq<real> {
    if key in hits then hits[key] else []
  }

  class InMemoryRateLimiter {
    var hits: map<string, seq<real>>

    constructor ()
      ensures hits == map[]
    {
      hits := map[];
    }

    method Allow(key: string, limit: int, window: int, now: real) returns (v: Verdict)
      modifies this
      ensures (hits, v) == (old(hits)[key := Request(Queue(old(hits), key), limit, window, now).0],
                            Request(Queue(old(hits), key), limit, window, now).1)
    {
      var q := Queue(hits, key);
      ghost var start, cutoff, n := q, now - window as real, 0;
      while q != [] && q[0] <= now - window as real
        invariant n <= |start| && q == start[n..]
        invariant forall k :: 0 <= k < n ==> start[k] <= cutoff
        decreases |q|
      {
        q := q[1..];
        n := n + 1;
      }
      EvictAt(start, n, cutoff);
      hits := hits[key := q];
      if |q| >= limit {
        if q == [] {
          return BadIndex;
        }
        var retryAfter := Truncate(q[0] + window as real - now) + 1;
        if retryAfter < 1 {
          retryAfter := 1;
        }
        return Deny(retryAfter);
      }
      assert hits[key := q + [now]] == old(hits)[key := q + [now]];
      hits := hits[key := q + [now]];
      v := Admit;
    }

    method Reset()
      modifies this
      ensures hits == map[]
    {
      hits := map[];
    }
  }

  // ----- whole runs, for one limit and one window

  datatype Call = Call(key: string, now: real)

  predicate Sorted(s: seq<real>) {
    forall i, j :: 0 <= i < j < |s| ==> s[i] <= s[j]
  }

  predicate ClockMonotone(calls: seq<Call>) {
    forall i, j :: 0 <= i < j < |calls| ==> calls[i].now <= calls[j].now
  }

  /** Queues and verdicts of the real limiter. */
  function FastRun(calls: seq<Call>, limit: int, window: int): (r: (map<string, seq<real>>, seq<Verdict>))
    ensures |r.1| == |calls|
  {
    if calls == [] then (map[], [])
    else
      var (hits, verdicts) := FastRun(calls[..|calls| - 1], limit, window);
      var c := calls[|calls| - 1];
      var (q, v) := Request(Queue(hits, c.key), limit, window, c.now);
      (hits[c.key := q], verdicts + [v])
  }

  function Recent(now: real, window: int): real -> bool {
    (t: real) => now - window as real < t <= now
  }

  /** The naive limiter: never forgets an admission, recounts the window on every request. */
  function NaiveRun(calls: seq<Call>, limit: int, window: int): (r: (map<string, seq<real>>, seq<Verdict>))
    ensures |r.1| == |calls|
  {
    if calls == [] then (map[], [])
    else
      var (admitted, verdicts) := NaiveRun(calls[..|calls| - 1], limit, window);
      var c := calls[|calls| - 1];
      var all := Queue(admitted, c.key);
      var v := Judge(Where(all, Recent(c.now, window)), limit, window, c.now);
      (admitted[c.key := if v.Admit? then all + [c.now] else all], verdicts + [v])
  }

  /** `q` is `all` without a prefix that a clock at `now` has already left behind. */
  predicate Trimmed(q: seq<real>, all: seq<real>, now: real, window: int) {
    && Sorted(all)
    && (forall i :: 0 <= i < |all| ==> all[i] <= now)
    && |q| <= |all| && q == all[|all| - |q|..]
    && (forall i :: 0 <= i < |all| - |q| ==> all[i] <= now - window as real)
  }

  /** A history cut at the edge of the window holds in the window what lies after the cut. */
  lemma RecentIsSuffix(all: seq<real>, n: nat, now: real, window: int)
    requires n <= |all|
    requires forall i :: 0 <= i < n ==> all[i] <= now - window as real
    requires forall i :: n <= i < |all| ==> now - window as real < all[i] <= now
    ensures Where(all, Recent(now, window)) == all[n..]
  {
    assert all == all[..n] + all[n..];
    WhereAppend(all[..n], all[n..], Recent(now, window));
    CountNone(all[..n], Recent(now, window));
    WhereAll(all[n..], Recent(now, window));
  }

  /** What the trimmed queue keeps live is what the full history holds in the window. */
  lemma LiveIsRecent(q: seq<real>, all: seq<real>, last: real, now: real, window: int)
    requires Trimmed(q, all, last, window) && last <= now
    ensures Evict(q, now - window as real) == Where(all, Recent(now, window))
    ensures Trimmed(Evict(q, now - window as real), all, now, window)
  {
    var m := |all| - |q|;
    var k := EvictCuts(q, now - window as real);
    assert forall i :: 0 <= i < |q| ==> q[i] == all[m + i];
    forall i | 0 <= i < m + k ensures all[i] <= now - window as real {
      if i >= m {
        assert all[i] == q[i - m];
      }
    }
    forall i | m + k <= i < |all| ensures now - window as real < all[i] {
      assert all[m + k] == q[k];
    }
    RecentIsSuffix(all, m + k, now, window);
  }

  lemma TrimmedLater(q: seq<real>, all: seq<real>, now: real, later: real, window: int)
    requires Trimmed(q, all, now, window) && now <= later
    ensures Trimmed(q, all, later, window)
  {
  }

  ghost predicate InStep(hits: map<string, seq<real>>, admitted: map<string, seq<real>>, now: real, window: int) {
    forall key :: Trimmed(Queue(hits, key), Queue(admitted, key), now, window)
  }

  lemma QueueStep(q: seq<real>, all: seq<real>, last: real, now: real, limit: int, window: int)
    requires Trimmed(q, all, last, window) && last <= now && window >= 0
    ensures var (q', v) := Request(q, limit, window, now);
            && v == Judge(Where(all, Recent(now, window)), limit, window, now)
            && Trimmed(q', if v.Admit? then all + [now] else all, now, window)
  {
    LiveIsRecent(q, all, last, now, window);
    var live := Evict(q, now - window as real);
    assert Trimmed(live + [now], all + [now], now, window);
  }

  /** One call keeps every queue trimmed, its own and all others. */
  lemma CallKeepsTrimmed(hits: map<string, seq<real>>, admitted: map<string, seq<real>>, last: real, c: Call,
                         limit: int, window: int, key: string)
    requires Trimmed(Queue(hits, key), Queue(admitted, key), last, window) && last <= c.now && window >= 0
    ensures var (q, v) := Request(Queue(hits, c.key), limit, window, c.now);
            var all := Queue(admitted, c.key);
            var all' := if v.Admit? then all + [c.now] else all;
            Trimmed(Queue(hits[c.key := q], key), Queue(admitted[c.key := all'], key), c.now, window)
  {
    if key == c.key {
      QueueStep(Queue(hits, key), Queue(admitted, key), last, c.now, limit, window);
    } else {
      var (q, v) := Request(Queue(hits, c.key), limit, window, c.now);
      assert Queue(hits[c.key := q], key) == Queue(hits, key);
    }
  }

  /** Evicting is invisible: on every run the queue gives the verdicts of the limiter that keeps everything. */
  lemma {:induction false} FastAgreesWithNaive(calls: seq<Call>, limit: int, window: int)
    requires ClockMonotone(calls) && window >= 0
    ensures FastRun(calls, limit, window).1 == NaiveRun(calls, limit, window).1
    ensures calls != [] ==> InStep(FastRun(calls, limit, window).0, NaiveRun(calls, limit, window).0,
                                   calls[|calls| - 1].now, window)
  {
    if calls != [] {
      var before, c := calls[..|calls| - 1], calls[|calls| - 1];
      FastAgreesWithNaive(before, limit, window);
      var last := if before == [] then c.now else before[|before| - 1].now;
      var hits, admitted := FastRun(before, limit, window).0, NaiveRun(before, limit, window).0;
      assert InStep(hits, admitted, last, window);
      QueueStep(Queue(hits, c.key), Queue(admitted, c.key), last, c.now, limit, window);
      var hits', admitted' := FastRun(calls, limit, window).0, NaiveRun(calls, limit, window).0;
      forall key ensures Trimmed(Queue(hits', key), Queue(admitted', key), c.now, window) {
        CallKeepsTrimmed(hits, admitted, last, c, limit, window, key);
      }
    }
  }

  // ----- spacing of admissions

  /** Any `limit + 1` successive admissions span at least one window. */
  predicate Spaced(s: seq<real>, limit: int, window: int) {
    limit >= 1 ==> forall i :: 0 <= i < |s| - limit ==> s[i + limit] >= s[i] + window as real
  }

  lemma AdmitKeepsSpacing(all: seq<real>, limit: int, window: int, now: real)
    requires limit >= 1 && Sorted(all) && (forall i :: 0 <= i < |all| ==> all[i] <= now)
    requires Spaced(all, limit, window) && |Where(all, Recent(now, window))| < limit
    ensures Spaced(all + [now], limit, window)
  {
    if |all| >= limit {
      var i := |all| - limit;
      RecentSuffix(all, i, now, window);
      assert all[i] <= now - window as real;
    }
  }

  /** If entry `i` of a sorted log is recent, so is everything after it. */
  lemma RecentSuffix(all: seq<real>, i: nat, now: real, window: int)
    requires Sorted(all) && i < |all| && forall k :: 0 <= k < |all| ==> all[k] <= now
    ensures all[i] > now - window as real ==> |Where(all, Recent(now, window))| >= |all| - i
  {
    if all[i] > now - window as real {
      assert all == all[..i] + all[i..];
      WhereAppend(all[..i], all[i..], Recent(now, window));
      WhereAll(all[i..], Recent(now, window));
    }
  }

  /** A log of admissions: in order, spaced, and none later than `now`. */
  predicate GoodLog(all: seq<real>, limit: int, window: int, now: real) {
    Sorted(all) && Spaced(all, limit, window) && forall i :: 0 <= i < |all| ==> all[i] <= now
  }

  lemma AdmitKeepsLog(all: seq<real>, limit: int, window: int, last: real, now: real)
    requires GoodLog(all, limit, window, last) && last <= now
    requires |Where(all, Recent(now, window))| < limit
    ensures GoodLog(all + [now], limit, window, now)
  {
    AdmitKeepsSpacing(all, limit, window, now);
  }

  lemma {:induction false} AdmissionsSpaced(calls: seq<Call>, limit: int, window: int, key: string)
    requires ClockMonotone(calls) && window >= 0
    ensures var all := Queue(NaiveRun(calls, limit, window).0, key);
            if calls == [] then all == [] else GoodLog(all, limit, window, calls[|calls| - 1].now)
  {
    if calls != [] {
      var before, c := calls[..|calls| - 1], calls[|calls| - 1];
      AdmissionsSpaced(before, limit, window, key);
      var all := Queue(NaiveRun(before, limit, window).0, key);
      var last := if before == [] then c.now else before[|before| - 1].now;
      assert GoodLog(all, limit, window, last);
      if key == c.key && |Where(all, Recent(c.now, window))| < limit {
        AdmitKeepsLog(all, limit, window, last, c.now);
      }
    }
  }

  function Spans(start: real, window: int): real -> bool {
    (t: real) => start < t <= start + window as real
  }

  lemma {:induction false} SpacedBoundsEveryWindow(s: seq<real>, limit: int, window: int, start: real)
    requires Sorted(s) && Spaced(s, limit, window) && limit >= 1
    ensures Count(s, Spans(start, window)) <= limit
  {
    if s != [] {
      if s[0] <= start {
        SpacedBoundsEveryWindow(s[1..], limit, window, start);
      } else if |s| > limit {
        var head, tail := s[..limit], s[limit..];
        assert s == head + tail;
        WhereAppend(head, tail, Spans(start, window));
        forall x | x in tail ensures !Spans(start, window)(x) {
          var i :| 0 <= i < |tail| && tail[i] == x;
          assert s[limit] >= s[0] + window as real;
          assert s[limit + i] == x && s[limit] <= s[limit + i];
        }
        CountNone(tail, Spans(start, window));
      }
    }
  }

  /** Times at which `key` was admitted by the real limiter. */
  function AdmittedTimes(calls: seq<Call>, verdicts: seq<Verdict>, key: string): seq<real>
    requires |calls| == |verdicts|
  {
    if calls == [] then []
    else
      var n := |calls| - 1;
      AdmittedTimes(calls[..n], verdicts[..n], key)
      + if calls[n].key == key && verdicts[n].Admit? then [calls[n].now] else []
  }

  lemma {:induction false} NaiveLogIsAdmittedTimes(calls: seq<Call>, limit: int, window: int, key: string)
    ensures AdmittedTimes(calls, NaiveRun(calls, limit, window).1, key) == Queue(NaiveRun(calls, limit, window).0, key)
  {
    if calls != [] {
      var n := |calls| - 1;
      NaiveLogIsAdmittedTimes(calls[..n], limit, window, key);
      assert NaiveRun(calls, limit, window).1[..n] == NaiveRun(calls[..n], limit, window).1;
    }
  }

  /** On every run of the real limiter no window of the configured length holds more than `limit` admissions. */
  lemma WindowNeverOverfull(calls: seq<Call>, limit: int, window: int, key: string, start: real)
    requires ClockMonotone(calls) && window >= 0 && limit >= 1
    ensures var times := AdmittedTimes(calls, FastRun(calls, limit, window).1, key);
            && Spaced(times, limit, window)
            && Count(times, Spans(start, window)) <= limit
  {
    FastAgreesWithNaive(calls, limit, window);
    NaiveLogIsAdmittedTimes(calls, limit, window, key);
    AdmissionsSpaced(calls, limit, window, key);
    SpacedBoundsEveryWindow(AdmittedTimes(calls, FastRun(calls, limit, window).1, key), limit, window, start);
  }

  /** The limiter refuses no more than it must: a request is refused exactly when its window already holds `limit`
      admissions. */
  lemma RefusedExactlyWhenFull(calls: seq<Call>, limit: int, window: int, c: Call)
    requires ClockMonotone(calls + [c]) && window >= 0 && limit >= 1
    ensures var times := AdmittedTimes(calls, FastRun(calls, limit, window).1, c.key);
            var v := FastRun(calls + [c], limit, window).1[|calls|];
            && (v.Admit? <==> Count(times, Recent(c.now, window)) < limit)
            && !v.BadIndex?
  {
    var calls' := calls + [c];
    assert calls'[..|calls|] == calls;
    forall i, j | 0 <= i < j < |calls| ensures calls[i].now <= calls[j].now {
      assert calls'[i].now <= calls'[j].now;
    }
    FastAgreesWithNaive(calls', limit, window);
    FastAgreesWithNaive(calls, limit, window);
    NaiveLogIsAdmittedTimes(calls, limit, window, c.key);
  }

  /** A limit below one never admits: the first request already finds no oldest entry to look at. */
  lemma {:induction false} LimitBelowOneFails(calls: seq<Call>, limit: int, window: int)
    requires limit < 1
    ensures forall i :: 0 <= i < |calls| ==> FastRun(calls, limit, window).1[i] == BadIndex
    ensures forall key :: Queue(FastRun(calls, limit, window).0, key) == []
  {
    if calls != [] {
      var before, c := calls[..|calls| - 1], calls[|calls| - 1];
      LimitBelowOneFails(before, limit, window);
      var hits := FastRun(before, limit, window).0;
      assert Queue(hits, c.key) == [];
      var hits' := FastRun(calls, limit, window).0;
      assert hits' == hits[c.key := []];
      forall key ensures Queue(hits', key) == [] {
        assert Queue(hits, key) == [];
      }
    }
  }

  // ----- the retry hint

  /** The queue after requests at `times`, none of which was admitted. */
  function AfterRefusals(q: seq<real>, times: seq<real>, window: int): seq<real> {
    if times == [] then q
    else Evict(AfterRefusals(q, times[..|times| - 1], window), times[|times| - 1] - window as real)
  }

  lemma EvictTwice(q: seq<real>, early: real, late: real)
    requires early <= late
    ensures Evict(Evict(q, early), late) == Evict(q, late)
  {
    var a := EvictCuts(q, early);
    var c := EvictCuts(q, late);
    assert a <= c;
    assert forall i :: 0 <= i < |q| - a ==> q[a..][i] == q[a + i];
    EvictAt(q[a..], c - a, late);
  }

  lemma {:induction false} RefusalsLeaveNoTrace(q: seq<real>, times: seq<real>, window: int, t: real)
    requires forall i :: 0 <= i < |times| ==> times[i] <= t
    ensures Evict(AfterRefusals(q, times, window), t - window as real) == Evict(q, t - window as real)
  {
    if times != [] {
      var n := |times| - 1;
      RefusalsLeaveNoTrace(q, times[..n], window, t);
      EvictTwice(AfterRefusals(q, times[..n], window), times[n] - window as real, t - window as real);
    }
  }

  lemma HintArithmetic(oldest: real, window: int, now: real)
    requires now - window as real < oldest <= now
    ensures var r := RetryAfter(oldest, window, now);
            1 <= r <= window + 1 && oldest + window as real < now + r as real <= oldest + window as real + 1.0
  {
    var x := oldest + window as real - now;
    assert 0.0 < x <= window as real;
    assert x.Floor <= window;
  }

  /** A full queue has room again from the moment its oldest entry leaves the window. */
  lemma RoomOnceOldestLeaves(live: seq<real>, limit: int, window: int, t: real)
    requires Sorted(live) && live != [] && |live| == limit
    ensures Request(live, limit, window, t).1.Admit? <==> t >= live[0] + window as real
  {
    var m := EvictCuts(live, t - window as real);
    assert m > 0 <==> live[0] <= t - window as real;
  }

  /** A refusal leaves a full queue and a hint computed from its oldest entry. */
  lemma DenialLooksAtOldest(q: seq<real>, limit: int, window: int, now: real)
    requires Sorted(q) && |q| <= limit && (forall i :: 0 <= i < |q| ==> q[i] <= now)
    requires Request(q, limit, window, now).1.Deny?
    ensures var (live, v) := Request(q, limit, window, now);
            && Sorted(live) && live != [] && |live| == limit
            && 1 <= v.retryAfter <= window + 1
            && live[0] + window as real < now + v.retryAfter as real <= live[0] + window as real + 1.0
  {
    var n := EvictCuts(q, now - window as real);
    HintArithmetic(q[n], window, now);
  }

  /** The hint of one refusal, for one queue: never early and at most one second late, with refused requests at
      `tries`. */
  lemma HintForQueue(q: seq<real>, limit: int, window: int, now: real, tries: seq<real>, t: real)
    requires Sorted(q) && |q| <= limit && (forall i :: 0 <= i < |q| ==> q[i] <= now)
    requires Request(q, limit, window, now).1.Deny?
    requires now <= t && forall i :: 0 <= i < |tries| ==> tries[i] <= t
    ensures var (live, v) := Request(q, limit, window, now);
            var later := Request(AfterRefusals(live, tries, window), limit, window, t).1;
            && |live| == limit && live != [] && 1 <= v.retryAfter <= window + 1
            && HintFits(live[0], window, now, t, v, later)
  {
    var live := Request(q, limit, window, now).0;
    DenialLooksAtOldest(q, limit, window, now);
    RefusalsLeaveNoTrace(live, tries, window, t);
    RoomOnceOldestLeaves(live, limit, window, t);
  }

  /** Refused at `now` by `v`, asked again at `t` with answer `later`: room comes when the oldest entry leaves the
      window, and the hint is after that, by at most one second. */
  predicate HintFits(oldest: real, window: int, now: real, t: real, v: Verdict, later: Verdict) {
    && v.Deny?
    && oldest + window as real < now + v.retryAfter as real <= oldest + window as real + 1.0
    && (later.Admit? <==> t >= oldest + window as real)
    && (t >= now + v.retryAfter as real ==> later.Admit?)
  }

  // ----- the hint on runs

  lemma {:induction false} QueueBounded(calls: seq<Call>, limit: int, window: int, key: string)
    requires limit >= 0
    ensures |Queue(FastRun(calls, limit, window).0, key)| <= limit
  {
    if calls != [] {
      var before, c := calls[..|calls| - 1], calls[|calls| - 1];
      QueueBounded(before, limit, window, key);
      var n := EvictCuts(Queue(FastRun(before, limit, window).0, c.key), c.now - window as real);
    }
  }

  /** One call on any queues. */
  function Serve(hits: map<string, seq<real>>, c: Call, limit: int, window: int): (map<string, seq<real>>, Verdict) {
    var (q, v) := Request(Queue(hits, c.key), limit, window, c.now);
    (hits[c.key := q], v)
  }

  /** Calls one after the other, from any queues. */
  function RunFrom(hits: map<string, seq<real>>, calls: seq<Call>, limit: int, window: int)
    : (r: (map<string, seq<real>>, seq<Verdict>))
    ensures |r.1| == |calls|
  {
    if calls == [] then (hits, [])
    else
      var (before, verdicts) := RunFrom(hits, calls[..|calls| - 1], limit, window);
      var (after, v) := Serve(before, calls[|calls| - 1], limit, window);
      (after, verdicts + [v])
  }

  /** A run goes on from the queues it has reached. */
  lemma {:induction false} RunGoesOn(calls: seq<Call>, more: seq<Call>, limit: int, window: int)
    ensures var (hits, verdicts) := FastRun(calls, limit, window);
            var (hits', verdicts') := RunFrom(hits, more, limit, window);
            FastRun(calls + more, limit, window) == (hits', verdicts + verdicts')
    decreases |more|
  {
    if more == [] {
      assert calls + more == calls;
      assert FastRun(calls, limit, window).1 + [] == FastRun(calls, limit, window).1;
    } else {
      var front := more[..|more| - 1];
      assert (calls + more)[..|calls + more| - 1] == calls + front;
      RunGoesOn(calls, front, limit, window);
      var (hits, verdicts) := FastRun(calls, limit, window);
      var (hits1, verdicts1) := RunFrom(hits, front, limit, window);
      var v := Serve(hits1, more[|more| - 1], limit, window).1;
      assert (verdicts + verdicts1) + [v] == verdicts + (verdicts1 + [v]);
    }
  }

  /** Times at which `key` asks. */
  function AskedTimes(calls: seq<Call>, key: string): seq<real> {
    if calls == [] then []
    else
      var c := calls[|calls| - 1];
      AskedTimes(calls[..|calls| - 1], key) + if c.key == key then [c.now] else []
  }

  /** No request of `key` is admitted. */
  predicate NoneAdmitted(calls: seq<Call>, verdicts: seq<Verdict>, key: string)
    requires |calls| == |verdicts|
  {
    forall i :: 0 <= i < |calls| && calls[i].key == key ==> !verdicts[i].Admit?
  }

  lemma RefusalsPush(q: seq<real>, asked: seq<real>, now: real, window: int)
    ensures AfterRefusals(q, asked + [now], window) == Evict(AfterRefusals(q, asked, window), now - window as real)
  {
    assert (asked + [now])[..|asked|] == asked;
  }

  lemma ServeRefused(hits: map<string, seq<real>>, c: Call, limit: int, window: int, key: string)
    ensures var (after, v) := Serve(hits, c, limit, window);
            c.key != key ==> Queue(after, key) == Queue(hits, key)
    ensures var (after, v) := Serve(hits, c, limit, window);
            c.key == key && !v.Admit? ==> Queue(after, key) == Evict(Queue(hits, key), c.now - window as real)
  {
  }

  lemma {:induction false} RefusalsOfRun(hits: map<string, seq<real>>, calls: seq<Call>, limit: int, window: int,
                                         key: string)
    requires NoneAdmitted(calls, RunFrom(hits, calls, limit, window).1, key)
    ensures Queue(RunFrom(hits, calls, limit, window).0, key)
         == AfterRefusals(Queue(hits, key), AskedTimes(calls, key), window)
    decreases |calls|
  {
    if calls != [] {
      var front, c := calls[..|calls| - 1], calls[|calls| - 1];
      var verdicts := RunFrom(hits, front, limit, window).1;
      assert forall i :: 0 <= i < |front| ==> RunFrom(hits, calls, limit, window).1[i] == verdicts[i];
      RefusalsOfRun(hits, front, limit, window, key);
      ServeRefused(RunFrom(hits, front, limit, window).0, c, limit, window, key);
      RefusalsPush(Queue(hits, key), AskedTimes(front, key), c.now, window);
      assert AskedTimes(front, key) + [] == AskedTimes(front, key);
    }
  }

  lemma {:induction false} AskedBy(calls: seq<Call>, key: string, t: real)
    requires forall i :: 0 <= i < |calls| ==> calls[i].now <= t
    ensures forall i :: 0 <= i < |AskedTimes(calls, key)| ==> AskedTimes(calls, key)[i] <= t
  {
    if calls != [] {
      AskedBy(calls[..|calls| - 1], key, t);
    }
  }

  /** The queue that a request at `now` finds, on any run: sorted, not in the future, and the newest admissions. */
  lemma ReachableQueue(calls: seq<Call>, limit: int, window: int, key: string, now: real)
    requires ClockMonotone(calls) && window >= 0 && (calls != [] ==> calls[|calls| - 1].now <= now)
    ensures var times := AdmittedTimes(calls, FastRun(calls, limit, window).1, key);
            Trimmed(Queue(FastRun(calls, limit, window).0, key), times, now, window)
  {
    FastAgreesWithNaive(calls, limit, window);
    NaiveLogIsAdmittedTimes(calls, limit, window, key);
    if calls != [] {
      var q, all := Queue(FastRun(calls, limit, window).0, key), Queue(NaiveRun(calls, limit, window).0, key);
      assert Trimmed(q, all, calls[|calls| - 1].now, window);
      TrimmedLater(q, all, calls[|calls| - 1].now, now, window);
    }
  }

  /** A refusal at `now` by a queue that some calls leave. */
  lemma QueueAfterCalls(calls: seq<Call>, limit: int, window: int, key: string, now: real, q: seq<real>,
                        times: seq<real>)
    requires ClockMonotone(calls) && window >= 0 && (calls != [] ==> calls[|calls| - 1].now <= now)
    requires q == Queue(FastRun(calls, limit, window).0, key)
    requires times == AdmittedTimes(calls, FastRun(calls, limit, window).1, key)
    requires Request(q, limit, window, now).1.Deny?
    ensures 1 <= limit && |q| <= limit && Trimmed(q, times, now, window)
  {
    DeniedLimit(calls, limit, window, key, now);
    ReachableQueue(calls, limit, window, key, now);
    QueueBounded(calls, limit, window, key);
  }

  /** On every run: a refused client whose later requests, if any, are refused too, has room again exactly from the
      moment its `limit`-th newest admission, `oldest`, leaves the window; the hint it was given is between 1 and
      window + 1, never early and at most one second late. `v` is the refusal, `later` the answer to the request at
      `t`. */
  lemma RetryHintIsTight(calls: seq<Call>, c: Call, between: seq<Call>, t: real, limit: int, window: int,
                         times: seq<real>) returns (oldest: real, v: Verdict, later: Verdict)
    requires ClockMonotone(calls + [c] + between + [Call(c.key, t)]) && window >= 0
    requires times == AdmittedTimes(calls, FastRun(calls, limit, window).1, c.key)
    requires var refused := Serve(FastRun(calls, limit, window).0, c, limit, window);
             refused.1.Deny? && NoneAdmitted(between, RunFrom(refused.0, between, limit, window).1, c.key)
    ensures var refused := Serve(FastRun(calls, limit, window).0, c, limit, window);
            var hits := RunFrom(refused.0, between, limit, window).0;
            v == refused.1 && later == Serve(hits, Call(c.key, t), limit, window).1
    ensures 1 <= limit <= |times| && oldest == times[|times| - limit]
    ensures HintFits(oldest, window, c.now, t, v, later) && 1 <= v.retryAfter <= window + 1
  {
    var hits := FastRun(calls, limit, window).0;
    var q := Queue(hits, c.key);
    RunClocks(calls, c, between, Call(c.key, t));
    AskedBy(between, c.key, t);
    QueueAfterCalls(calls, limit, window, c.key, c.now, q, times);
    oldest, v, later := HintFromLog(q, times, limit, window, c.now, AskedTimes(between, c.key), t);
    RefusalsOfRun(Serve(hits, c, limit, window).0, between, limit, window, c.key);
  }

  /** The hint for a queue that holds the newest admissions of a log. */
  lemma HintFromLog(q: seq<real>, times: seq<real>, limit: int, window: int, now: real, tries: seq<real>, t: real)
    returns (oldest: real, v: Verdict, later: Verdict)
    requires Trimmed(q, times, now, window) && |q| <= limit && Request(q, limit, window, now).1.Deny?
    requires now <= t && forall i :: 0 <= i < |tries| ==> tries[i] <= t
    ensures v == Request(q, limit, window, now).1
    ensures later == Request(AfterRefusals(Request(q, limit, window, now).0, tries, window), limit, window, t).1
    ensures 0 < limit <= |times| && oldest == times[|times| - limit]
    ensures HintFits(oldest, window, now, t, v, later) && 1 <= v.retryAfter <= window + 1
  {
    var live := Request(q, limit, window, now).0;
    v := Request(q, limit, window, now).1;
    later := Request(AfterRefusals(live, tries, window), limit, window, t).1;
    HintForQueue(q, limit, window, now, tries, t);
    oldest := live[0];
    assert oldest == times[|times| - limit] by {
      var n := EvictCuts(q, now - window as real);
      assert forall i :: 0 <= i < |q| ==> q[i] == times[|times| - |q| + i];
    }
  }

  lemma RunClocks(calls: seq<Call>, c: Call, between: seq<Call>, again: Call)
    requires ClockMonotone(calls + [c] + between + [again])
    ensures ClockMonotone(calls) && (calls != [] ==> calls[|calls| - 1].now <= c.now) && c.now <= again.now
    ensures forall i :: 0 <= i < |between| ==> between[i].now <= again.now
  {
    var all := calls + [c] + between + [again];
    assert forall i :: 0 <= i < |calls| ==> all[i] == calls[i];
    assert all[|calls|] == c && all[|all| - 1] == again;
    assert forall i :: 0 <= i < |between| ==> all[|calls| + 1 + i] == between[i];
  }

  /** Only a positive limit refuses. */
  lemma DeniedLimit(calls: seq<Call>, limit: int, window: int, key: string, now: real)
    requires Request(Queue(FastRun(calls, limit, window).0, key), limit, window, now).1.Deny?
    ensures limit >= 1
  {
    if limit < 1 {
      LimitBelowOneFails(calls, limit, window);
    }
  }
}
