/** A fleet of replicas: each with its own sliding window, all sharing one fixed-window counter that may fail. */
module SharedLimiter {
  import opened Rows
  import opened SlidingWindow
  import Text

  datatype Counter = Counter(count: int, expiresAt: real)

  /** What one call to the shared counter did: nothing, everything, or its effect without its answer. */
  datatype Redis = NoClient | Replied(ttl: int) | FailedUnapplied | FailedApplied

  /** Number of the fixed window that a wall-clock time lies in. */
  function Bucket(wall: real, window: int): int
    requires window >= 1
  {
    (wall / window as real).Floor
  }

  /** Start of a bucket. */
  function Edge(bucket: int, window: int): real {
    bucket as real * window as real
  }

  lemma BucketSpan(wall: real, window: int)
    requires window >= 1
    ensures Edge(Bucket(wall, window), window) <= wall < Edge(Bucket(wall, window), window) + window as real
  {
    SpanOf(wall, window as real, Bucket(wall, window) as real);
  }

  lemma SpanOf(wall: real, w: real, b: real)
    requires w > 0.0 && b <= wall / w < b + 1.0
    ensures b * w <= wall < b * w + w
  {
    var x := wall / w;
    DivideBack(wall, w);
    MulLe(b, x, w);
    calc {
      wall;
      x * w;
    < { MulLt(x, b + 1.0, w); }
      (b + 1.0) * w;
    == { Distribute(b, w); }
      b * w + w;
    }
  }

  lemma DivideBack(x: real, w: real)
    requires w > 0.0
    ensures x / w * w == x
  {
  }

  lemma Distribute(a: real, w: real)
    ensures (a + 1.0) * w == a * w + w
  {
  }

  lemma MulLe(a: real, b: real, w: real)
    requires a <= b && w > 0.0
    ensures a * w <= b * w
  {
  }

  lemma MulLt(a: real, b: real, w: real)
    requires a < b && w > 0.0
    ensures a * w < b * w
  {
  }

  /** Edges of different buckets lie whole windows apart. */
  lemma EdgesApart(b: int, c: int, window: int)
    requires window >= 1 && b < c
    ensures Edge(b, window) + window as real <= Edge(c, window)
  {
    var w := window as real;
    Distribute(b as real, w);
    MulLe(b as real + 1.0, c as real, w);
  }

  function CounterKey(key: string, bucket: int): string {
    "rl:" + key + ":" + Text.Dec(bucket)
  }

  /** Different client keys or different buckets never share a counter, whatever the client key contains. */
  lemma CounterKeyInjective(key: string, bucket: int, key': string, bucket': int)
    requires CounterKey(key, bucket) == CounterKey(key', bucket')
    ensures key == key' && bucket == bucket'
  {
    assert "rl:" + key + ":" == "rl:" + key + [':'];
    Text.DecIsClean(bucket, ':');
    Text.DecIsClean(bucket', ':');
    Text.CutLast("rl:" + key, Text.Dec(bucket), "rl:" + key', Text.Dec(bucket'), ':');
    assert ("rl:" + key)[3..] == key && ("rl:" + key')[3..] == key';
    Text.DecInjective(bucket, bucket');
  }

  /** One atomic increment: an expired or absent counter restarts at one with a fresh lifetime. */
  function Increment(counters: map<string, Counter>, ck: string, window: int, wall: real): Counter {
    if ck in counters && wall < counters[ck].expiresAt && counters[ck].count != 0
    then Counter(counters[ck].count + 1, counters[ck].expiresAt)
    else Counter(1, wall + window as real)
  }

  /** The decision of one replica on its local verdict and the shared count. */
  function Combine(local: Verdict, count: int, limit: int, ttl: int): Verdict {
    if local.Admit? && count <= limit then Admit
    else
      var localRetry := if local.Deny? then local.retryAfter else 0;
      var sharedRetry := if count <= limit then 0 else if ttl > 1 then ttl else 1;
      Deny(if localRetry > sharedRetry then localRetry else sharedRetry)
  }

  class RedisServer {
    var counters: map<string, Counter>

    constructor ()
      ensures counters == map[]
    {
      counters := map[];
    }

    method IncrExpire(ck: string, window: int, wall: real) returns (current: int)
      modifies this
      ensures counters == old(counters)[ck := Increment(old(counters), ck, window, wall)]
      ensures current == counters[ck].count
      ensures var live := ck in old(counters) && wall < old(counters)[ck].expiresAt && old(counters)[ck].count != 0;
              && current == 1 + (if live then old(counters)[ck].count else 0)
              && counters[ck].expiresAt == if live then old(counters)[ck].expiresAt else wall + window as real
    {
      var live := ck in counters && wall < counters[ck].expiresAt;
      current := 1 + if live then counters[ck].count else 0;
      var expiresAt := if current == 1 then wall + window as real else counters[ck].expiresAt;
      counters := counters[ck := Counter(current, expiresAt)];
    }
  }

  class RedisRateLimiter {
    const fallback: InMemoryRateLimiter

    constructor ()
      ensures fresh(fallback) && fallback.hits == map[]
    {
      fallback := new InMemoryRateLimiter();
    }

    method AsyncAllow(key: string, limit: int, window: int, mono: real, wall: real, server: RedisServer, redis: Redis)
      returns (v: Verdict)
      requires window >= 1
      modifies fallback, server
      ensures var local := Request(Queue(old(fallback.hits), key), limit, window, mono);
              var ck := CounterKey(key, Bucket(wall, window));
              && fallback.hits == old(fallback.hits)[key := local.0]
              && server.counters == (if Applied(redis) && local.1 != BadIndex
                                     then old(server.counters)[ck := Increment(old(server.counters), ck, window, wall)]
                                     else old(server.counters))
              && v == Decide(local.1, redis, Increment(old(server.counters), ck, window, wall).count, limit)
              && (v.Admit? ==> local.1.Admit?)
    {
      var local := fallback.Allow(key, limit, window, mono);
      if local == BadIndex || redis == NoClient || redis == FailedUnapplied {
        return local;
      }
      var count := server.IncrExpire(CounterKey(key, Bucket(wall, window)), window, wall);
      if redis == FailedApplied {
        return local;
      }
      v := Combine(local, count, limit, redis.ttl);
    }
  }

  predicate Applied(redis: Redis) {
    redis.Replied? || redis.FailedApplied?
  }

  function Decide(local: Verdict, redis: Redis, count: int, limit: int): Verdict {
    if redis.Replied? && local != BadIndex then Combine(local, count, limit, redis.ttl) else local
  }

  // ----- fleets

  datatype FleetCall = FleetCall(replica: int, key: string, mono: real, wall: real, redis: Redis)

  /** Calls of all replicas in the order in which they reached the shared counter. */
  datatype Trace = Begin | Then(before: Trace, call: FleetCall)

  datatype Fleet = Fleet(hits: map<(int, string), seq<real>>, counters: map<string, Counter>)

  function LocalQueue(f: Fleet, replica: int, key: string): seq<real> {
    if (replica, key) in f.hits then f.hits[(replica, key)] else []
  }

  function LocalRequest(f: Fleet, c: FleetCall, limit: int, window: int): (seq<real>, Verdict) {
    Request(LocalQueue(f, c.replica, c.key), limit, window, c.mono)
  }

  function SharedCount(f: Fleet, c: FleetCall, window: int): Counter
    requires window >= 1
  {
    Increment(f.counters, CounterKey(c.key, Bucket(c.wall, window)), window, c.wall)
  }

  function VerdictOf(f: Fleet, c: FleetCall, limit: int, window: int): Verdict
    requires window >= 1
  {
    Decide(LocalRequest(f, c, limit, window).1, c.redis, SharedCount(f, c, window).count, limit)
  }

  function FleetStep(f: Fleet, c: FleetCall, limit: int, window: int): Fleet
    requires window >= 1
  {
    var (q, local) := LocalRequest(f, c, limit, window);
    Fleet(f.hits[(c.replica, c.key) := q],
          if Applied(c.redis) && local != BadIndex
          then f.counters[CounterKey(c.key, Bucket(c.wall, window)) := SharedCount(f, c, window)]
          else f.counters)
  }

  function FleetRun(t: Trace, limit: int, window: int): Fleet
    requires window >= 1
  {
    match t
    case Begin => Fleet(map[], map[])
    case Then(before, c) => FleetStep(FleetRun(before, limit, window), c, limit, window)
  }

  // ----- the local bound survives every failure pattern

  predicate NoLaterThan(t: Trace, replica: int, x: real) {
    t.Then? ==> NoLaterThan(t.before, replica, x) && (t.call.replica == replica ==> t.call.mono <= x)
  }

  /** The monotonic clock of a replica does not run backwards. */
  predicate LocalClockMonotone(t: Trace, replica: int) {
    t.Then? ==>
      && LocalClockMonotone(t.before, replica)
      && (t.call.replica == replica ==> NoLaterThan(t.before, replica, t.call.mono))
  }

  predicate At(c: FleetCall, replica: int, key: string) {
    c.replica == replica && c.key == key
  }

  /** Monotonic times at which the replica's own window had room for `key`. */
  function LocallyAdmitted(t: Trace, limit: int, window: int, replica: int, key: string): seq<real>
    requires window >= 1
  {
    match t
    case Begin => []
    case Then(before, c) =>
      var rest := LocallyAdmitted(before, limit, window, replica, key);
      if At(c, replica, key) && LocalRequest(FleetRun(before, limit, window), c, limit, window).1.Admit?
      then rest + [c.mono] else rest
  }

  /** Monotonic times at which the replica let `key` through. */
  function LetThrough(t: Trace, limit: int, window: int, replica: int, key: string): seq<real>
    requires window >= 1
  {
    match t
    case Begin => []
    case Then(before, c) =>
      var rest := LetThrough(before, limit, window, replica, key);
      if At(c, replica, key) && VerdictOf(FleetRun(before, limit, window), c, limit, window).Admit?
      then rest + [c.mono] else rest
  }

  lemma {:induction false} LocalHistorySpaced(t: Trace, limit: int, window: int, replica: int, key: string, x: real)
    requires window >= 1 && LocalClockMonotone(t, replica) && NoLaterThan(t, replica, x)
    ensures var all := LocallyAdmitted(t, limit, window, replica, key);
            && Trimmed(LocalQueue(FleetRun(t, limit, window), replica, key), all, x, window)
            && Spaced(all, limit, window)
  {
    if t.Then? {
      var f, c := FleetRun(t.before, limit, window), t.call;
      var all := LocallyAdmitted(t.before, limit, window, replica, key);
      if At(c, replica, key) {
        LocalHistorySpaced(t.before, limit, window, replica, key, c.mono);
        ReplicaStep(LocalQueue(f, replica, key), all, c.mono, x, limit, window);
      } else {
        LocalHistorySpaced(t.before, limit, window, replica, key, x);
        assert LocalQueue(FleetRun(t, limit, window), replica, key) == LocalQueue(f, replica, key);
      }
    }
  }

  lemma ReplicaStep(q: seq<real>, all: seq<real>, now: real, x: real, limit: int, window: int)
    requires Trimmed(q, all, now, window) && Spaced(all, limit, window) && now <= x && window >= 1
    ensures var (q', v) := Request(q, limit, window, now);
            var all' := if v.Admit? then all + [now] else all;
            Trimmed(q', all', x, window) && Spaced(all', limit, window)
  {
    QueueStep(q, all, now, now, limit, window);
    var (q', v) := Request(q, limit, window, now);
    TrimmedLater(q', if v.Admit? then all + [now] else all, now, x, window);
    if v.Admit? {
      AdmitKeepsSpacing(all, limit, window, now);
    }
  }

  lemma {:induction false} LetThroughOnlyIfLocal(t: Trace, limit: int, window: int, replica: int, key: string,
                                                 p: real -> bool)
    requires window >= 1
    ensures Count(LetThrough(t, limit, window, replica, key), p)
         <= Count(LocallyAdmitted(t, limit, window, replica, key), p)
  {
    if t.Then? {
      LetThroughOnlyIfLocal(t.before, limit, window, replica, key, p);
      CountPush(LetThrough(t.before, limit, window, replica, key), t.call.mono, p);
      CountPush(LocallyAdmitted(t.before, limit, window, replica, key), t.call.mono, p);
    }
  }

  lemma {:induction false} NoLaterStill(t: Trace, replica: int, x: real, y: real)
    requires NoLaterThan(t, replica, x) && x <= y
    ensures NoLaterThan(t, replica, y)
  {
    if t.Then? {
      NoLaterStill(t.before, replica, x, y);
    }
  }

  lemma {:induction false} LatestCall(t: Trace, replica: int) returns (x: real)
    ensures NoLaterThan(t, replica, x)
  {
    if t.Then? {
      var y := LatestCall(t.before, replica);
      x := if y < t.call.mono then t.call.mono else y;
      NoLaterStill(t.before, replica, y, x);
    } else {
      x := 0.0;
    }
  }

  /** Whatever Redis does, no window on a replica's own clock holds more than `limit` requests it let through. */
  lemma LocalBoundSurvives(t: Trace, limit: int, window: int, replica: int, key: string, start: real)
    requires window >= 1 && limit >= 1 && LocalClockMonotone(t, replica)
    ensures Count(LetThrough(t, limit, window, replica, key), Spans(start, window)) <= limit
  {
    var x := LatestCall(t, replica);
    LocalHistorySpaced(t, limit, window, replica, key, x);
    SpacedBoundsEveryWindow(LocallyAdmitted(t, limit, window, replica, key), limit, window, start);
    LetThroughOnlyIfLocal(t, limit, window, replica, key, Spans(start, window));
  }

  // ----- the shared bound

  /** Wall-clock times at which any replica let `key` through; on demand, only those with an answer from Redis. */
  function Admissions(t: Trace, limit: int, window: int, key: string, answered: bool): seq<real>
    requires window >= 1
  {
    match t
    case Begin => []
    case Then(before, c) =>
      var rest := Admissions(before, limit, window, key, answered);
      if c.key == key && (answered ==> c.redis.Replied?)
         && VerdictOf(FleetRun(before, limit, window), c, limit, window).Admit?
      then rest + [c.wall] else rest
  }

  function OfBucket(bucket: int, window: int): real -> bool
    requires window >= 1
  {
    (t: real) => Bucket(t, window) == bucket
  }

  /** A counter started inside its bucket outlives the bucket. */
  lemma CounterOutlivesBucket(first: real, later: real, window: int)
    requires window >= 1 && Bucket(first, window) == Bucket(later, window)
    ensures later < first + window as real
  {
    BucketSpan(first, window);
    BucketSpan(later, window);
  }

  /** The counter has seen at least every answered admission of its bucket and will not expire before the bucket ends.
      */
  ghost predicate CounterOk(f: Fleet, admitted: nat, key: string, bucket: int, window: int)
    requires window >= 1
  {
    var ck := CounterKey(key, bucket);
    && (admitted > 0 ==> ck in f.counters)
    && (ck in f.counters ==>
          && admitted <= f.counters[ck].count
          && forall t :: Bucket(t, window) == bucket ==> t < f.counters[ck].expiresAt)
  }

  lemma StepKeepsCounter(f: Fleet, c: FleetCall, n: nat, limit: int, window: int, key: string, bucket: int)
    requires window >= 1 && n <= limit && CounterOk(f, n, key, bucket, window)
    ensures var more := c.key == key && c.redis.Replied? && VerdictOf(f, c, limit, window).Admit?
                        && Bucket(c.wall, window) == bucket;
            var n' := n + if more then 1 else 0;
            n' <= limit && CounterOk(FleetStep(f, c, limit, window), n', key, bucket, window)
  {
    var ck, ck' := CounterKey(key, bucket), CounterKey(c.key, Bucket(c.wall, window));
    if ck == ck' {
      CounterKeyInjective(key, bucket, c.key, Bucket(c.wall, window));
      forall t | Bucket(t, window) == bucket ensures t < c.wall + window as real {
        CounterOutlivesBucket(c.wall, t, window);
      }
    }
  }

  /** Per client key and bucket, at most `limit` requests pass on an answer from Redis, whatever else fails. */
  lemma {:induction false} BucketBound(t: Trace, limit: int, window: int, key: string, bucket: int)
    requires window >= 1 && limit >= 1
    ensures var n := Count(Admissions(t, limit, window, key, true), OfBucket(bucket, window));
            n <= limit && CounterOk(FleetRun(t, limit, window), n, key, bucket, window)
  {
    if t.Then? {
      BucketBound(t.before, limit, window, key, bucket);
      var times := Admissions(t.before, limit, window, key, true);
      CountPush(times, t.call.wall, OfBucket(bucket, window));
      StepKeepsCounter(FleetRun(t.before, limit, window), t.call, Count(times, OfBucket(bucket, window)),
                       limit, window, key, bucket);
    }
  }

  predicate Healthy(t: Trace) {
    t.Then? ==> Healthy(t.before) && t.call.redis.Replied?
  }

  lemma {:induction false} HealthyMeansAnswered(t: Trace, limit: int, window: int, key: string)
    requires window >= 1 && Healthy(t)
    ensures Admissions(t, limit, window, key, false) == Admissions(t, limit, window, key, true)
  {
    if t.Then? {
      HealthyMeansAnswered(t.before, limit, window, key);
    }
  }

  /** A sliding window of one window length touches at most two buckets. */
  lemma SlidingTouchesTwo(start: real, t: real, window: int)
    requires window >= 1 && Spans(start, window)(t)
    ensures Bucket(t, window) == Bucket(start, window) || Bucket(t, window) == Bucket(start, window) + 1
  {
    var b, c := Bucket(start, window), Bucket(t, window);
    BucketSpan(start, window);
    BucketSpan(t, window);
    if c < b {
      EdgesApart(c, b, window);
    } else if c > b + 1 {
      EdgesApart(b, b + 1, window);
      EdgesApart(b + 1, c, window);
    }
  }

  /** While Redis answers, the whole fleet lets through at most `limit` per bucket and twice that per sliding window. */
  lemma FleetBound(t: Trace, limit: int, window: int, key: string, bucket: int, start: real)
    requires window >= 1 && limit >= 1 && Healthy(t)
    ensures var times := Admissions(t, limit, window, key, false);
            && Count(times, OfBucket(bucket, window)) <= limit
            && Count(times, Spans(start, window)) <= 2 * limit
  {
    var times := Admissions(t, limit, window, key, false);
    HealthyMeansAnswered(t, limit, window, key);
    BucketBound(t, limit, window, key, bucket);
    var b := Bucket(start, window);
    BucketBound(t, limit, window, key, b);
    BucketBound(t, limit, window, key, b + 1);
    forall x | x in times && Spans(start, window)(x) ensures OfBucket(b, window)(x) || OfBucket(b + 1, window)(x) {
      SlidingTouchesTwo(start, x, window);
    }
    CountCover(times, Spans(start, window), OfBucket(b, window), OfBucket(b + 1, window));
  }

  /** The factor of two is reached: one request at the end of a bucket, one at the start of the next. */
  lemma FleetBoundIsReached() returns (t: Trace)
    ensures Healthy(t) && Count(Admissions(t, 1, 60, "k", false), Spans(58.0, 60)) == 2
  {
    var late, early := FleetCall(0, "k", 0.0, 59.0, Replied(60)), FleetCall(1, "k", 0.0, 60.0, Replied(60));
    t := Then(Then(Begin, late), early);
    assert Bucket(59.0, 60) == 0 && Bucket(60.0, 60) == 1;
    var f := FleetRun(Then(Begin, late), 1, 60);
    if CounterKey("k", 0) == CounterKey("k", 1) {
      CounterKeyInjective("k", 0, "k", 1);
    }
    assert VerdictOf(FleetRun(Begin, 1, 60), late, 1, 60).Admit?;
    assert VerdictOf(f, early, 1, 60).Admit?;
    assert Admissions(t, 1, 60, "k", false) == [] + [59.0] + [60.0];
    CountPush([] + [59.0], 60.0, Spans(58.0, 60));
    CountPush([], 59.0, Spans(58.0, 60));
  }

  // ----- exactly what a call is answered

  /** The call is about `key`, in the bucket, and its increment took effect, with an answer or without. */
  predicate TakesEffect(c: FleetCall, key: string, bucket: int, window: int)
    requires window >= 1
  {
    c.key == key && Bucket(c.wall, window) == bucket && (c.redis.Replied? || c.redis.FailedApplied?)
  }

  /** Calls of `key` in a bucket that took effect. */
  function AppliedCalls(t: Trace, key: string, bucket: int, window: int): nat
    requires window >= 1
  {
    match t
    case Begin => 0
    case Then(before, c) =>
      AppliedCalls(before, key, bucket, window)
      + if TakesEffect(c, key, bucket, window) then 1 else 0
  }

  /** The counter of a key and bucket is the number of calls applied to it, and lasts to the end of the bucket. */
  ghost predicate CounterExact(f: Fleet, n: nat, key: string, bucket: int, window: int)
    requires window >= 1
  {
    var ck := CounterKey(key, bucket);
    && (ck in f.counters <==> n > 0)
    && (n > 0 ==>
          && f.counters[ck].count == n
          && forall t :: Bucket(t, window) == bucket ==> t < f.counters[ck].expiresAt)
  }

  lemma StepKeepsExact(f: Fleet, c: FleetCall, n: nat, limit: int, window: int, key: string, bucket: int)
    requires window >= 1 && limit >= 1 && CounterExact(f, n, key, bucket, window)
    ensures CounterExact(FleetStep(f, c, limit, window), n + if TakesEffect(c, key, bucket, window) then 1 else 0,
                         key, bucket, window)
  {
    var ck, ck' := CounterKey(key, bucket), CounterKey(c.key, Bucket(c.wall, window));
    if ck == ck' {
      CounterKeyInjective(key, bucket, c.key, Bucket(c.wall, window));
      forall t | Bucket(t, window) == bucket ensures t < c.wall + window as real {
        CounterOutlivesBucket(c.wall, t, window);
      }
    }
  }

  /** On every trace, in whatever order the wall clocks are read and whatever fails. */
  lemma {:induction false} CountersAreExact(t: Trace, limit: int, window: int, key: string, bucket: int)
    requires window >= 1 && limit >= 1
    ensures CounterExact(FleetRun(t, limit, window), AppliedCalls(t, key, bucket, window), key, bucket, window)
  {
    if t.Then? {
      CountersAreExact(t.before, limit, window, key, bucket);
      StepKeepsExact(FleetRun(t.before, limit, window), t.call, AppliedCalls(t.before, key, bucket, window),
                     limit, window, key, bucket);
    }
  }

  lemma CountSeen(t: Trace, c: FleetCall, limit: int, window: int)
    requires window >= 1 && limit >= 1
    ensures SharedCount(FleetRun(t, limit, window), c, window).count
         == AppliedCalls(t, c.key, Bucket(c.wall, window), window) + 1
  {
    CountersAreExact(t, limit, window, c.key, Bucket(c.wall, window));
  }

  /** The replica's own window has room exactly if fewer than `limit` of its admissions lie in it. */
  lemma LocalRoom(t: Trace, c: FleetCall, limit: int, window: int)
    requires window >= 1 && LocalClockMonotone(Then(t, c), c.replica)
    ensures LocalRequest(FleetRun(t, limit, window), c, limit, window).1.Admit?
       <==> Count(LocallyAdmitted(t, limit, window, c.replica, c.key), Recent(c.mono, window)) < limit
  {
    LocalHistorySpaced(t, limit, window, c.replica, c.key, c.mono);
    QueueStep(LocalQueue(FleetRun(t, limit, window), c.replica, c.key),
              LocallyAdmitted(t, limit, window, c.replica, c.key), c.mono, c.mono, limit, window);
  }

  /** Which requests pass: those for which the replica's own window has room and, if Redis answers, at most `limit`
      calls have been applied in the bucket, this one included. */
  lemma PassesExactly(t: Trace, c: FleetCall, limit: int, window: int)
    requires window >= 1 && limit >= 1 && LocalClockMonotone(Then(t, c), c.replica)
    ensures var v := VerdictOf(FleetRun(t, limit, window), c, limit, window);
            v.Admit? <==>
              && Count(LocallyAdmitted(t, limit, window, c.replica, c.key), Recent(c.mono, window)) < limit
              && (c.redis.Replied? ==> AppliedCalls(t, c.key, Bucket(c.wall, window), window) + 1 <= limit)
  {
    LocalRoom(t, c, limit, window);
    CountSeen(t, c, limit, window);
  }

  /** A refusal names at least one second, at least what the replica's own window asks for, at least what is left of a
      counter that is over the limit, and never more than the larger of these. */
  lemma RefusalHint(t: Trace, c: FleetCall, limit: int, window: int)
    requires window >= 1 && limit >= 1 && LocalClockMonotone(Then(t, c), c.replica)
    ensures var f := FleetRun(t, limit, window);
            var (v, local) := (VerdictOf(f, c, limit, window), LocalRequest(f, c, limit, window).1);
            var over := c.redis.Replied? && AppliedCalls(t, c.key, Bucket(c.wall, window), window) + 1 > limit;
            !v.Admit? ==>
              && v.Deny? && v.retryAfter >= 1
              && (local.Deny? ==> v.retryAfter >= local.retryAfter)
              && (over ==> v.retryAfter >= c.redis.ttl)
              && (v.retryAfter == 1 || (local.Deny? && v.retryAfter == local.retryAfter)
                  || (over && v.retryAfter == c.redis.ttl))
  {
    CountSeen(t, c, limit, window);
  }
}
