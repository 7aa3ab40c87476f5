/** The per-key sliding window limiter (app/sso/ratelimit.py). */
module RateLimit {

  datatype Verdict =
    | Allowed
    | Denied(retryAfter: int)
    | IndexError   // bucket[0] of an empty deque

  predicate Sorted(ts: seq<real>) {
    forall i, j | 0 <= i < j < |ts| :: ts[i] <= ts[j]
  }

  /** How many of the instants lie in the closed interval [lo, hi]. */
  function Within(ts: seq<real>, lo: real, hi: real): nat {
    if ts == [] then 0
    else Within(ts[..|ts| - 1], lo, hi) + (if lo <= ts[|ts| - 1] <= hi then 1 else 0)
  }

  lemma {:induction false} WithinConcat(a: seq<real>, b: seq<real>, lo: real, hi: real)
    ensures Within(a + b, lo, hi) == Within(a, lo, hi) + Within(b, lo, hi)
  {
    if b == [] {
      assert a + b == a;
    } else {
      assert (a + b)[..|a + b| - 1] == a + b[..|b| - 1];
      WithinConcat(a, b[..|b| - 1], lo, hi);
    }
  }

  lemma {:induction false} WithinNone(ts: seq<real>, lo: real, hi: real)
    requires forall i | 0 <= i < |ts| :: ts[i] < lo || hi < ts[i]
    ensures Within(ts, lo, hi) == 0
  {
    if ts == [] {
    } else {
      WithinNone(ts[..|ts| - 1], lo, hi);
    }
  }

  lemma {:induction false} WithinAll(ts: seq<real>, lo: real, hi: real)
    requires forall i | 0 <= i < |ts| :: lo <= ts[i] <= hi
    ensures Within(ts, lo, hi) == |ts|
  {
    if ts == [] {
    } else {
      WithinAll(ts[..|ts| - 1], lo, hi);
    }
  }

  lemma {:induction false} WithinWiden(ts: seq<real>, lo: real, hi: real, lo': real, hi': real)
    requires forall i | 0 <= i < |ts| && lo <= ts[i] <= hi :: lo' <= ts[i] <= hi'
    ensures Within(ts, lo, hi) <= Within(ts, lo', hi')
  {
    if ts == [] {
    } else {
      WithinWiden(ts[..|ts| - 1], lo, hi, lo', hi');
    }
  }

  /** Time ordered, and every admission found fewer than `limit` earlier ones in the window that
      ended with it. */
  ghost predicate Lawful(ts: seq<real>, limit: int, window: real) {
    ts == [] ||
    var before, last := ts[..|ts| - 1], ts[|ts| - 1];
    && Lawful(before, limit, window)
    && UpTo(before, last)
    && Within(before, last - window, last) < limit
  }

  ghost predicate UpTo(ts: seq<real>, now: real) {
    forall i | 0 <= i < |ts| :: ts[i] <= now
  }

  lemma {:induction false} LawfulIsSorted(ts: seq<real>, limit: int, window: real)
    requires Lawful(ts, limit, window)
    ensures Sorted(ts)
  {
    if ts == [] {
    } else {
      LawfulIsSorted(ts[..|ts| - 1], limit, window);
    }
  }

  /** Whatever the instant x, at most `limit` admissions fall into [x, x + window]. */
  lemma {:induction false} AtMostLimitPerWindow(ts: seq<real>, limit: int, window: real, x: real)
    requires Lawful(ts, limit, window) && limit >= 0
    ensures Within(ts, x, x + window) <= limit
  {
    if ts == [] {
    } else {
      var before, last := ts[..|ts| - 1], ts[|ts| - 1];
      if x <= last <= x + window {
        WithinWiden(before, x, x + window, last - window, last);
      } else {
        AtMostLimitPerWindow(before, limit, window, x);
      }
    }
  }

  /** The same key, left alone, is still refused k seconds later. */
  predicate RefusedAfter(ts: seq<real>, limit: int, window: real, now: real, k: int) {
    Within(ts, now + k as real - window, now + k as real) >= limit
  }

  ghost predicate IsLeastWait(ts: seq<real>, limit: int, window: real, now: real, r: int) {
    && r >= 1
    && !RefusedAfter(ts, limit, window, now, r)
    && forall k | 0 <= k < r :: RefusedAfter(ts, limit, window, now, k)
  }

  /** `bucket` is `ts` without a prefix of instants that have left the window at `now`. */
  ghost predicate Covers(bucket: seq<real>, ts: seq<real>, window: real, now: real) {
    && |bucket| <= |ts|
    && bucket == ts[|ts| - |bucket|..]
    && forall i | 0 <= i < |ts| - |bucket| :: now - ts[i] > window
  }

  /** From `now` on, what the bucket left out counts no more. */
  lemma GoneCountsNoMore(bucket: seq<real>, ts: seq<real>, window: real, now: real, later: real)
    requires Covers(bucket, ts, window, now) && now <= later
    ensures Within(ts, later - window, later) == Within(bucket, later - window, later)
  {
    var gone := ts[..|ts| - |bucket|];
    assert ts == gone + bucket;
    hide Within;
    WithinConcat(gone, bucket, later - window, later);
    WithinNone(gone, later - window, later);
  }

  /** Popping what has expired leaves a bucket whose length is the count over the whole log. */
  lemma WindowIsTail(bucket: seq<real>, ts: seq<real>, window: real, now: real)
    requires Covers(bucket, ts, window, now) && Sorted(ts) && UpTo(ts, now)
    requires bucket != [] ==> now - bucket[0] <= window
    ensures Within(ts, now - window, now) == |bucket|
  {
    GoneCountsNoMore(bucket, ts, window, now, now);
    TailSorted(bucket, ts, now);
    hide Within, Covers;
    WithinAll(bucket, now - window, now);
  }

  lemma PopKeepsCover(bucket: seq<real>, ts: seq<real>, window: real, now: real)
    requires Covers(bucket, ts, window, now)
    requires bucket != [] && now - bucket[0] > window
    ensures Covers(bucket[1..], ts, window, now)
  {
  }

  /** A full bucket lets one more in as soon as its oldest instant has left the window. */
  lemma LaterWindow(bucket: seq<real>, ts: seq<real>, window: real, now: real, later: real)
    requires Covers(bucket, ts, window, now) && Sorted(bucket) && UpTo(bucket, now) && now <= later
    requires bucket != []
    ensures Within(ts, later - window, later) < |bucket| <==> later - bucket[0] > window
  {
    hide Within, Covers;
    GoneCountsNoMore(bucket, ts, window, now, later);
    if later - bucket[0] <= window {
      WithinAll(bucket, later - window, later);
    } else {
      WithoutFirst(bucket, later - window, later);
    }
  }

  lemma WithoutFirst(ts: seq<real>, lo: real, hi: real)
    requires ts != [] && ts[0] < lo
    ensures Within(ts, lo, hi) < |ts|
  {
  }

  lemma {:induction false} WithinBounded(ts: seq<real>, lo: real, hi: real)
    ensures Within(ts, lo, hi) <= |ts|
  {
    if ts == [] {
    } else {
      WithinBounded(ts[..|ts| - 1], lo, hi);
    }
  }

  lemma TailSorted(bucket: seq<real>, ts: seq<real>, now: real)
    requires |bucket| <= |ts| && bucket == ts[|ts| - |bucket|..] && Sorted(ts) && UpTo(ts, now)
    ensures Sorted(bucket) && UpTo(bucket, now)
  {
  }

  /** The seconds a full bucket asks a caller to wait. */
  function RetryAfter(oldest: real, window: real, now: real): int {
    MaxInt(1, Truncate(window - (now - oldest)) + 1)
  }

  /** It is the least whole number of seconds after which the same key is admitted again. */
  lemma RetryAfterIsLeast(bucket: seq<real>, ts: seq<real>, window: real, now: real)
    requires Covers(bucket, ts, window, now) && Sorted(ts) && UpTo(ts, now)
    requires bucket != [] && now - bucket[0] <= window
    ensures IsLeastWait(ts, |bucket|, window, now, RetryAfter(bucket[0], window, now))
  {
    var r := RetryAfter(bucket[0], window, now);
    TailSorted(bucket, ts, now);
    LaterWindow(bucket, ts, window, now, now + r as real);
    forall k | 0 <= k < r
      ensures RefusedAfter(ts, |bucket|, window, now, k)
    {
      LaterWindow(bucket, ts, window, now, now + k as real);
    }
  }

  /** What ties a stored bucket to the unpruned log of its key. */
  ghost predicate BucketOk(bucket: seq<real>, ts: seq<real>, limit: int, window: real, clock: real) {
    && Lawful(ts, limit, window)
    && UpTo(ts, clock)
    && Covers(bucket, ts, window, clock)
    && |bucket| <= MaxInt(limit, 0)
  }

  lemma BucketAges(bucket: seq<real>, ts: seq<real>, limit: int, window: real, clock: real, now: real)
    requires BucketOk(bucket, ts, limit, window, clock) && clock <= now
    ensures BucketOk(bucket, ts, limit, window, now)
  {
  }

  /** The decision for one bucket, and what it means for the log of its key. */
  lemma Decision(bucket: seq<real>, ts: seq<real>, limit: int, window: real, now: real)
    requires BucketOk(bucket, ts, limit, window, now)
    requires bucket != [] ==> now - bucket[0] <= window
    ensures Within(ts, now - window, now) == |bucket| <= MaxInt(limit, 0)
    ensures |bucket| < limit ==> BucketOk(bucket + [now], ts + [now], limit, window, now)
    ensures |bucket| == limit >= 1 ==> IsLeastWait(ts, limit, window, now, RetryAfter(bucket[0], window, now))
  {
    LawfulIsSorted(ts, limit, window);
    WindowIsTail(bucket, ts, window, now);
    if |bucket| < limit {
      assert (ts + [now])[..|ts + [now]| - 1] == ts;
    } else if limit >= 1 {
      RetryAfterIsLeast(bucket, ts, window, now);
    }
  }

  /** Every admission of one key so far. */
  function LogOf(admitted: map<string, seq<real>>, key: string): seq<real> {
    if key in admitted then admitted[key] else []
  }

  ghost predicate AllOk(buckets: map<string, seq<real>>, admitted: map<string, seq<real>>,
                        limit: int, window: real, clock: real) {
    forall k | k in buckets :: BucketOk(buckets[k], LogOf(admitted, k), limit, window, clock)
  }

  lemma AllAge(buckets: map<string, seq<real>>, admitted: map<string, seq<real>>,
               limit: int, window: real, clock: real, now: real)
    requires AllOk(buckets, admitted, limit, window, clock) && clock <= now
    ensures AllOk(buckets, admitted, limit, window, now)
  {
    forall k | k in buckets
      ensures BucketOk(buckets[k], LogOf(admitted, k), limit, window, now)
    {
      BucketAges(buckets[k], LogOf(admitted, k), limit, window, clock, now);
    }
  }

  lemma ReplaceBucket(buckets: map<string, seq<real>>, admitted: map<string, seq<real>>,
                      limit: int, window: real, now: real, key: string, bucket: seq<real>, ts: seq<real>)
    requires AllOk(buckets, admitted, limit, window, now)
    requires BucketOk(bucket, ts, limit, window, now)
    ensures AllOk(buckets[key := bucket], admitted[key := ts], limit, window, now)
    ensures ts == LogOf(admitted, key) ==> AllOk(buckets[key := bucket], admitted, limit, window, now)
  {
  }

  /** The sweep: drop the keys whose bucket is empty. */
  function Sweep(buckets: map<string, seq<real>>): map<string, seq<real>> {
    map k | k in buckets && buckets[k] != [] :: buckets[k]
  }

  /** Every stored bucket is non-empty, so the sweep forgets nothing. */
  lemma SweepForgetsNothing(buckets: map<string, seq<real>>)
    requires forall k | k in buckets :: buckets[k] != []
    ensures Sweep(buckets) == buckets
  {
  }

  lemma StoredBucket(buckets: map<string, seq<real>>, admitted: map<string, seq<real>>,
                     limit: int, window: real, now: real, key: string)
    requires AllOk(buckets, admitted, limit, window, now) && admitted.Keys <= buckets.Keys
    ensures BucketOk(if key in buckets then buckets[key] else [], LogOf(admitted, key), limit, window, now)
  {
  }

  class SlidingWindowRateLimiter {
    const limit: int
    const window: real
    var buckets: map<string, seq<real>>
    /** Every admission there ever was, per key, never pruned. */
    ghost var admitted: map<string, seq<real>>
    ghost var clock: real

    ghost predicate Valid()
      reads this
    {
      && admitted.Keys <= buckets.Keys
      && (limit <= 0 ==> admitted == map[])
      && (limit >= 1 ==> forall k | k in buckets :: buckets[k] != [])
      && AllOk(buckets, admitted, limit, window, clock)
    }

    /** So a limiter never admits more than `limit` calls of a key in any window. */
    lemma NeverMoreThanLimit(key: string, x: real)
      requires Valid() && limit >= 0
      ensures Within(LogOf(admitted, key), x, x + window) <= limit
    {
      AtMostLimitPerWindow(LogOf(admitted, key), limit, window, x);
    }

    constructor (limit: int, window: real, now: real)
      ensures Valid() && clock == now && admitted == map[] && buckets == map[]
      ensures this.limit == limit && this.window == window
    {
      this.limit := limit;
      this.window := window;
      buckets := map[];
      admitted := map[];
      clock := now;
    }

    /** The decision is the one an unpruned admission log would give; a refusal names the least
        whole number of seconds after which the same key, left alone, is admitted again; and the
        sweep over 10 000 keys never forgets a key. */
    method Check(key: string, now: real) returns (v: Verdict)
      requires Valid() && clock <= now
      modifies this
      ensures Valid() && clock == now
      ensures v.IndexError? <==> limit <= 0
      ensures limit >= 1 ==> (v.Allowed? <==> Within(LogOf(old(admitted), key), now - window, now) < limit)
      ensures admitted == if v.Allowed? then old(admitted)[key := LogOf(old(admitted), key) + [now]] else old(admitted)
      ensures v.Denied? ==> IsLeastWait(LogOf(admitted, key), limit, window, now, v.retryAfter)
      ensures key in buckets && old(buckets.Keys) <= buckets.Keys
    {
      hide BucketOk, AllOk, IsLeastWait, Within, RetryAfter, Sweep, LogOf;
      ghost var ts := LogOf(admitted, key);
      AllAge(buckets, admitted, limit, window, clock, now);
      StoredBucket(buckets, admitted, limit, window, now, key);
      clock := now;
      var bucket := if key in buckets then buckets[key] else [];
      bucket := PopExpired(bucket, ts, limit, window, now);
      Decision(bucket, ts, limit, window, now);
      ReplaceBucket(buckets, admitted, limit, window, now, key, bucket, ts);
      if |bucket| >= limit {
        buckets := buckets[key := bucket];
        if bucket == [] {
          return IndexError;
        }
        return Denied(RetryAfter(bucket[0], window, now));
      }
      Admit(key, bucket + [now], now, ts + [now]);
      return Allowed;
    }

    /** Stores the bucket with the admission, and sweeps if there are too many keys. */
    method Admit(key: string, bucket: seq<real>, now: real, ghost ts: seq<real>)
      requires limit >= 1 && bucket != [] && clock == now && BucketOk(bucket, ts, limit, window, now)
      requires Valid()
      modifies this`buckets, this`admitted
      ensures Valid() && admitted == old(admitted)[key := ts]
      ensures key in buckets && old(buckets.Keys) <= buckets.Keys
    {
      hide BucketOk, AllOk, Sweep, LogOf;
      ReplaceBucket(buckets, admitted, limit, window, now, key, bucket, ts);
      buckets := buckets[key := bucket];
      admitted := admitted[key := ts];
      if |buckets| > 10_000 {
        SweepForgetsNothing(buckets);
        buckets := Sweep(buckets);
      }
    }
  }

  method PopExpired(stored: seq<real>, ghost ts: seq<real>, limit: int, window: real, now: real)
    returns (bucket: seq<real>)
    requires BucketOk(stored, ts, limit, window, now)
    ensures BucketOk(bucket, ts, limit, window, now)
    ensures bucket != [] ==> now - bucket[0] <= window
  {
    bucket := stored;
    while bucket != [] && now - bucket[0] > window
      invariant BucketOk(bucket, ts, limit, window, now)
      decreases |bucket|
    {
      PopKeepsCover(bucket, ts, window, now);
      bucket := bucket[1..];
    }
  }

  function MaxInt(a: int, b: int): int {
    if a >= b then a else b
  }

  /** int(x): truncation toward zero. */
  function Truncate(x: real): int {
    if x >= 0.0 then x.Floor else -((-x).Floor)
  }
}
