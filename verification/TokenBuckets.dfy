/** Token buckets with whole-token refill, as the rate limiter uses them.
    Times and durations are nanoseconds of a monotone clock. */
module TokenBuckets {
  const MINUTE := 60_000_000_000

  datatype Bucket = Bucket(tokens: int, maxTokens: int, lastRefill: int, refillRate: int)

  predicate Sound(b: Bucket) {
    0 <= b.tokens <= b.maxTokens && 0 < b.refillRate
  }

  /** newTokenBucket: starts full. */
  function NewBucket(max: int, rate: int, now: int): (b: Bucket)
    requires 0 < max && 0 < rate
    ensures Sound(b)
  {
    Bucket(max, max, now, rate)
  }

  /** time.Minute / refillPerMin: a full refill takes at most one minute. */
  function RefillRate(perMinute: int): (rate: int)
    requires 0 < perMinute <= MINUTE
    ensures 0 < rate && perMinute * rate <= 60_000_000_000 < perMinute * (rate + 1)
  {
    MINUTE / perMinute
  }

  /** tokenBucket.refill: the fraction of a token is forgotten. */
  function Refill(b: Bucket, now: int): (r: Bucket)
    requires Sound(b)
    ensures Sound(r) && r.maxTokens == b.maxTokens && r.refillRate == b.refillRate
    ensures now - r.lastRefill < b.refillRate
  {
    var elapsed := now - b.lastRefill;
    if elapsed < b.refillRate then b
    else
      QuotientAtLeast(1, elapsed, b.refillRate);
      var added := elapsed / b.refillRate;
      b.(tokens := if b.tokens + added < b.maxTokens then b.tokens + added else b.maxTokens, lastRefill := now)
  }

  /** tokenBucket.Allow. */
  function Take(b: Bucket, now: int): (r: (Bucket, bool))
    requires Sound(b)
    ensures Sound(r.0) && r.0.maxTokens == b.maxTokens && r.0.refillRate == b.refillRate
    ensures now - r.0.lastRefill < b.refillRate
    ensures (if r.1 then 1 else 0) + r.0.tokens <= b.maxTokens
  {
    var b' := Refill(b, now);
    if b'.tokens > 0 then (b'.(tokens := b'.tokens - 1), true) else (b', false)
  }

  // ---- division ---------------------------------------------------------------------

  lemma CancelFactor(a: int, b: int, r: int)
    requires 0 < r && a * r < b * r
    ensures a < b
  {
  }

  lemma QuotientAtLeast(q: int, z: int, r: int)
    requires 0 < r && q * r <= z
    ensures q <= z / r
  {
    assert z == r * (z / r) + z % r;
    assert (z / r + 1) * r == r * (z / r) + r;
    CancelFactor(q, z / r + 1, r);
  }

  lemma QuotientsAdd(x: int, y: int, r: int)
    requires 0 < r
    ensures x / r + y / r <= (x + y) / r
  {
    assert x == r * (x / r) + x % r && y == r * (y / r) + y % r;
    assert (x / r + y / r) * r == r * (x / r) + r * (y / r);
    QuotientAtLeast(x / r + y / r, x + y, r);
  }

  lemma QuotientMonotone(x: int, y: int, r: int)
    requires 0 < r && x <= y
    ensures x / r <= y / r
  {
    assert (x / r) * r <= y by { assert x == r * (x / r) + x % r; }
    QuotientAtLeast(x / r, y, r);
  }

  lemma QuotientPlusOne(x: int, r: int)
    requires 0 < r
    ensures (x + r) / r <= x / r + 1
  {
    assert x == r * (x / r) + x % r && x + r == r * ((x + r) / r) + (x + r) % r;
    assert (x / r + 2) * r == r * (x / r) + 2 * r;
    CancelFactor((x + r) / r, x / r + 2, r);
  }

  // ---- two facts about one bucket -------------------------------------------------------

  /** What a bucket can still give until time `end`. */
  function Supply(b: Bucket, end: int): int
    requires Sound(b)
  {
    b.tokens + (end - b.lastRefill) / b.refillRate
  }

  /** A call spends supply when it is allowed and never creates any. */
  lemma TakeSpendsSupply(b: Bucket, now: int, end: int)
    requires Sound(b) && now <= end
    ensures var (b', ok) := Take(b, now); (if ok then 1 else 0) + Supply(b', end) <= Supply(b, end)
  {
    if now - b.lastRefill >= b.refillRate {
      QuotientsAdd(now - b.lastRefill, end - now, b.refillRate);
    }
  }

  /** Right after a call, the supply exceeds the tokens by at most one plus the
      refills that fit in the remaining time. */
  lemma SupplyAfterTake(b: Bucket, now: int, end: int)
    requires Sound(b) && now <= end
    ensures var (b', ok) := Take(b, now);
            (if ok then 1 else 0) + Supply(b', end) <= b.maxTokens + 1 + (end - now) / b.refillRate
  {
    var b' := Take(b, now).0;
    QuotientMonotone(end - b'.lastRefill, end - now + b.refillRate, b.refillRate);
    QuotientPlusOne(end - now, b.refillRate);
  }

  // ---- a bucket and a new one ------------------------------------------------------------

  /** The answers to attempts at the given times. */
  function Answers(b: Bucket, times: seq<int>): (r: seq<bool>)
    requires Sound(b)
    ensures |r| == |times|
    decreases |times|
  {
    if times == [] then [] else var (b', ok) := Take(b, times[0]); [ok] + Answers(b', times[1..])
  }

  /** By `now` the bucket has refilled completely, or it was never used. */
  predicate FullAgain(b: Bucket, now: int)
    requires 0 < b.refillRate
  {
    || (b.refillRate <= now - b.lastRefill && b.maxTokens <= b.tokens + (now - b.lastRefill) / b.refillRate)
    || (b.lastRefill == now && b.tokens == b.maxTokens)
  }

  lemma FullAgainIsNew(b: Bucket, now: int)
    requires Sound(b) && 0 < b.maxTokens
    ensures FullAgain(b, now) <==> Refill(b, now) == NewBucket(b.maxTokens, b.refillRate, now)
  {
  }

  /** Attempts from `now` on, in the order of time. */
  ghost predicate From(times: seq<int>, now: int) {
    && times != [] && times[0] == now
    && forall i, j :: 0 <= i < j < |times| ==> times[i] <= times[j]
  }

  lemma AnswersAfterRefill(b: Bucket, times: seq<int>)
    requires Sound(b) && times != []
    ensures Answers(b, times) == Answers(Refill(b, times[0]), times)
  {
    assert Refill(Refill(b, times[0]), times[0]) == Refill(b, times[0]);
  }

  function Repeat(now: int, n: nat): (r: seq<int>)
    ensures |r| == n && forall i :: 0 <= i < n ==> r[i] == now
  {
    seq(n, i => now)
  }

  /** Attempts at one moment are allowed while there are tokens; one later
      attempt finds what is left. */
  lemma {:induction false} DrainThen(b: Bucket, now: int, n: nat, last: int)
    requires Sound(b) && now - b.lastRefill < b.refillRate
    ensures forall k :: 0 <= k < n ==> Answers(b, Repeat(now, n) + [last])[k] == (k < b.tokens)
    ensures n <= b.tokens ==> Answers(b, Repeat(now, n) + [last])[n] == Take(b.(tokens := b.tokens - n), last).1
    decreases n
  {
    var times := Repeat(now, n) + [last];
    if n > 0 {
      var (b', ok) := Take(b, now);
      assert times[0] == now && times[1..] == Repeat(now, n - 1) + [last];
      DrainThen(b', now, n - 1, last);
      var rest := Answers(b', times[1..]);
      assert Answers(b, times) == [ok] + rest;
      forall k | 0 <= k < n ensures Answers(b, times)[k] == (k < b.tokens) {
        if k > 0 { assert Answers(b, times)[k] == rest[k - 1]; }
      }
    }
  }

  /** How many attempts at the moment `now` are allowed: the tokens left, one
      more for every whole interval since the last refill, and never more than
      the bucket holds. */
  function Available(b: Bucket, now: int): int
    requires 0 < b.refillRate
  {
    var tokens := b.tokens + (now - b.lastRefill) / b.refillRate;
    if tokens < b.maxTokens then tokens else b.maxTokens
  }

  lemma RefillIsAvailable(b: Bucket, now: int)
    requires Sound(b) && b.lastRefill <= now
    ensures Refill(b, now).tokens == Available(b, now)
  {
    if now - b.lastRefill < b.refillRate {
      assert (now - b.lastRefill) / b.refillRate == 0;
    }
  }

  /** Of `n` attempts at one moment exactly the available ones are allowed, the
      first ones. */
  lemma AllowedAtOnce(b: Bucket, now: int, n: nat)
    requires Sound(b) && b.lastRefill <= now
    ensures forall k :: 0 <= k < n ==> Answers(b, Repeat(now, n))[k] == (k < Available(b, now))
  {
    if n > 0 {
      var all := Repeat(now, n - 1) + [now];
      assert all == Repeat(now, n);
      RefillIsAvailable(b, now);
      AnswersAfterRefill(b, all);
      DrainThen(Refill(b, now), now, n - 1, now);
      DrainThen(Refill(b, now), now, n, now);
      assert Repeat(now, n) + [now] == all + [now];
      AnswersPrefix(Refill(b, now), all, now);
    }
  }

  /** Later attempts do not change earlier answers. */
  lemma {:induction false} AnswersPrefix(b: Bucket, times: seq<int>, last: int)
    requires Sound(b)
    ensures Answers(b, times + [last])[..|times|] == Answers(b, times)
    decreases |times|
  {
    if times != [] {
      var (b', ok) := Take(b, times[0]);
      AnswersPrefix(b', times[1..], last);
      assert (times + [last])[1..] == times[1..] + [last];
    }
  }

  lemma ToldWhenShort(b: Bucket, now: int) returns (times: seq<int>)
    requires Sound(b) && 0 < b.maxTokens && now - b.lastRefill < b.refillRate && b.lastRefill <= now
    requires b != NewBucket(b.maxTokens, b.refillRate, now)
    ensures From(times, now) && Answers(b, times) != Answers(NewBucket(b.maxTokens, b.refillRate, now), times)
  {
    var n, last, full := b.maxTokens, b.lastRefill + b.refillRate, NewBucket(b.maxTokens, b.refillRate, now);
    times := Repeat(now, n) + [last];
    DrainThen(b, now, n, last);
    DrainThen(full, now, n, last);
    if b.tokens < n {
      assert Answers(b, times)[b.tokens] != Answers(full, times)[b.tokens];
    } else {
      LastToken(b, now);
      assert Answers(b, times)[n] != Answers(full, times)[n];
    }
  }

  /** Two empty buckets told apart by when they refill. */
  lemma LastToken(b: Bucket, now: int)
    requires Sound(b) && 0 < b.maxTokens && now - b.lastRefill < b.refillRate && b.lastRefill < now
    ensures Take(b.(tokens := 0), b.lastRefill + b.refillRate).1
    ensures !Take(Bucket(0, b.maxTokens, now, b.refillRate), b.lastRefill + b.refillRate).1
  {
    QuotientAtLeast(1, b.refillRate, b.refillRate);
  }

  /** Putting a new bucket in the place of `b` can be told by attempts from `now`
      on iff `b` is not full again by then. */
  lemma ReplacementToldIff(b: Bucket, now: int)
    requires Sound(b) && 0 < b.maxTokens && b.lastRefill <= now
    ensures (exists times :: From(times, now)
                             && Answers(b, times) != Answers(NewBucket(b.maxTokens, b.refillRate, now), times))
            <==> !FullAgain(b, now)
  {
    var full := NewBucket(b.maxTokens, b.refillRate, now);
    FullAgainIsNew(b, now);
    if FullAgain(b, now) {
      forall times | From(times, now) ensures Answers(b, times) == Answers(full, times) {
        AnswersAfterRefill(b, times);
      }
    } else {
      var times := ToldWhenShort(Refill(b, now), now);
      AnswersAfterRefill(b, times);
    }
  }
}
