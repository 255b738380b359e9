/**
 Token buckets (src/RateLimiter.cpp, src/RateLimiter.h), over the reals. Times are
 readings of a monotone clock.
 */
module TokenBuckets {

  datatype Bucket = Bucket(tokens: real, capacity: real, refillRate: real, lastRefill: real, requestCount: nat)

  function Min(a: real, b: real): real {
    if a < b then a else b
  }

  /** Never over the capacity, and never in debt unless the capacity is. */
  predicate ValidBucket(b: Bucket) {
    Min(0.0, b.capacity) <= b.tokens <= b.capacity && b.refillRate >= 0.0
  }

  function NewBucket(capacity: real, rate: real, now: real): Bucket {
    Bucket(capacity, capacity, rate, now, 0)
  }

  /** What a bucket gains between two readings of the clock. */
  function Earned(rate: real, a: real, b: real): real {
    (b - a) * rate
  }

  /** What the bucket would hold at a later time. */
  function TokensAt(b: Bucket, t: real): real {
    Min(b.capacity, b.tokens + Earned(b.refillRate, b.lastRefill, t))
  }

  function Refill(b: Bucket, now: real): Bucket {
    b.(tokens := TokensAt(b, now), lastRefill := now)
  }

  function Consume(b: Bucket, now: real): (Bucket, bool) {
    var r := Refill(b, now);
    if r.tokens >= 1.0 then (r.(tokens := r.tokens - 1.0, requestCount := r.requestCount + 1), true) else (r, false)
  }

  lemma Grows(rate: real, a: real, b: real)
    requires rate >= 0.0 && a <= b
    ensures Earned(rate, a, b) >= 0.0
  {
  }

  lemma Splits(rate: real, a: real, b: real, c: real)
    ensures Earned(rate, a, c) == Earned(rate, a, b) + Earned(rate, b, c)
  {
  }

  lemma TokensInRange(b: Bucket, t: real)
    requires ValidBucket(b) && b.lastRefill <= t
    ensures Min(0.0, b.capacity) <= TokensAt(b, t) <= b.capacity
  {
    Grows(b.refillRate, b.lastRefill, t);
  }

  /** Refilling in two steps is refilling in one. */
  lemma RefillComposes(b: Bucket, t: real, t': real)
    requires ValidBucket(b) && b.lastRefill <= t <= t'
    ensures ValidBucket(Refill(b, t)) && TokensAt(Refill(b, t), t') == TokensAt(b, t')
    ensures TokensAt(b, t') <= TokensAt(b, t) + Earned(b.refillRate, t, t')
  {
    TokensInRange(b, t);
    Grows(b.refillRate, t, t');
    Splits(b.refillRate, b.lastRefill, t, t');
  }

  /** Conservation: what is taken out plus what is left never exceeds what was there plus the refill. */
  lemma ConsumeConserves(b: Bucket, t0: real, t: real, t1: real)
    requires ValidBucket(b) && b.lastRefill <= t0 <= t <= t1
    ensures var (b', ok) := Consume(b, t);
      && ValidBucket(b') && b'.lastRefill == t && b'.capacity == b.capacity && b'.refillRate == b.refillRate
      && TokensAt(b', t1) + (if ok then 1.0 else 0.0) <= TokensAt(b, t0) + Earned(b.refillRate, t0, t1)
  {
    TokensInRange(b, t);
    RefillComposes(b, t0, t);
    Grows(b.refillRate, t, t1);
    Splits(b.refillRate, t0, t, t1);
    Instant(Consume(b, t).0, t);
  }

  function Clip(x: real): real {
    if x < 0.0 then 0.0 else x
  }

  /** What could be spent at a later time. */
  function Spendable(b: Bucket, t: real): real {
    Clip(TokensAt(b, t))
  }

  lemma SpendableInRange(b: Bucket, t: real)
    requires ValidBucket(b) && b.lastRefill <= t
    ensures 0.0 <= Spendable(b, t) <= Clip(b.capacity)
  {
    TokensInRange(b, t);
  }

  lemma SpendableLater(b: Bucket, t: real, t': real)
    requires ValidBucket(b) && b.lastRefill <= t <= t'
    ensures Spendable(Refill(b, t), t') == Spendable(b, t') <= Spendable(b, t) + Earned(b.refillRate, t, t')
  {
    RefillComposes(b, t, t');
    Grows(b.refillRate, t, t');
  }

  lemma SpendConserves(b: Bucket, t0: real, t: real, t1: real)
    requires ValidBucket(b) && b.lastRefill <= t0 <= t <= t1
    ensures var (b', ok) := Consume(b, t);
      Spendable(b', t1) + (if ok then 1.0 else 0.0) <= Spendable(b, t0) + Earned(b.refillRate, t0, t1)
  {
    ConsumeConserves(b, t0, t, t1);
    Grows(b.refillRate, t0, t1);
    TokensInRange(b, t);
    TokensInRange(Consume(b, t).0, t1);
    TokensInRange(b, t0);
  }

  lemma Instant(b: Bucket, t: real)
    requires ValidBucket(b) && b.lastRefill == t
    ensures TokensAt(b, t) == b.tokens
  {
    assert Earned(b.refillRate, t, t) == 0.0;
  }

  /** The two buckets cannot be told apart from time `t` on. */
  predicate SameFrom(a: Bucket, b: Bucket, t: real) {
    && ValidBucket(a) && ValidBucket(b) && a.lastRefill <= t && b.lastRefill <= t
    && a.capacity == b.capacity && a.refillRate == b.refillRate && TokensAt(a, t) == TokensAt(b, t)
  }

  lemma SameLater(a: Bucket, b: Bucket, t: real, t': real)
    requires SameFrom(a, b, t) && t <= t'
    ensures SameFrom(a, b, t')
  {
    RefillComposes(a, t, t');
    RefillComposes(b, t, t');
  }

  lemma SameConsume(a: Bucket, b: Bucket, t: real, t': real)
    requires SameFrom(a, b, t) && t <= t'
    ensures Consume(a, t').1 == Consume(b, t').1 && SameFrom(Consume(a, t').0, Consume(b, t').0, t')
  {
    SameLater(a, b, t, t');
    ConsumeConserves(a, t, t', t');
    ConsumeConserves(b, t, t', t');
  }
}
