/** A token bucket, with the time passed in. Time is in seconds. */
module TokenBuckets {
  import opened Items

  type Time = real

  function Halved(n: nat): (r: real)
    ensures 0.0 < r
  {
    if n == 0 then 1.0 else Halved(n - 1) / 2.0
  }

  /** The least rate a bucket may have, two to the power of minus 1022. */
  const MIN_POSITIVE: real := Halved(1022)

  datatype Bucket = Bucket(tokens: real, last: Time, rate: real, burst: real)

  type TokenBucket = b: Bucket | 0.0 < b.rate && 1.0 <= b.burst && 0.0 <= b.tokens <= b.burst
    witness Bucket(1.0, 0.0, 1.0, 1.0)

  datatype Answer = Taken | Wait(seconds: real)

  function Elapsed(since: Time, now: Time): (r: real)
    ensures r >= 0.0
  {
    if now < since then 0.0 else now - since
  }

  function Rate(rate: real): (r: real)
    ensures 0.0 < r
  {
    if rate < MIN_POSITIVE then MIN_POSITIVE else rate
  }

  function Burst(burst: nat): (r: real)
    ensures 1.0 <= r
  {
    Max(burst, 1) as real
  }

  function New(rate: real, burst: nat, now: Time): TokenBucket { Bucket(Burst(burst), now, Rate(rate), Burst(burst)) }

  function Refill(b: TokenBucket, now: Time): TokenBucket {
    Monotone(0.0, Elapsed(b.last, now), b.rate);
    var tokens := b.tokens + Elapsed(b.last, now) * b.rate;
    b.(tokens := if tokens < b.burst then tokens else b.burst, last := now)
  }

  /** Take one token, or say how long until one is there. */
  function TryTake(b: TokenBucket, now: Time): (TokenBucket, Answer) {
    var full := Refill(b, now);
    if full.tokens >= 1.0 then (full.(tokens := full.tokens - 1.0), Taken)
    else (full, Wait((1.0 - full.tokens) / full.rate))
  }

  /** Long enough untouched to be full again. */
  predicate IsIdle(b: TokenBucket, now: Time) { Elapsed(b.last, now) >= b.burst / b.rate }

  lemma ProductBound(x: real, y: real, rate: real)
    requires 0.0 < rate && x >= y / rate
    ensures x * rate >= y
  {
    assert (x - y / rate) * rate >= 0.0;
    assert (x - y / rate) * rate == x * rate - y;
  }

  lemma QuotientExact(x: real, y: real, rate: real)
    requires 0.0 < rate
    ensures x >= y / rate <==> x * rate >= y
  {
    if x >= y / rate {
      ProductBound(x, y, rate);
    } else {
      assert (y / rate - x) * rate > 0.0;
      assert (y / rate) * rate == y;
    }
  }

  lemma Monotone(x: real, y: real, rate: real)
    requires 0.0 < rate && x <= y
    ensures x * rate <= y * rate
  {
    assert (y - x) * rate >= 0.0;
  }

  /** An idle bucket answers, and is left, exactly as a new one. */
  lemma IdleIsNew(b: TokenBucket, rate: real, burst: nat, now: Time)
    requires b.rate == Rate(rate) && b.burst == Burst(burst) && IsIdle(b, now)
    ensures TryTake(b, now) == TryTake(New(rate, burst, now), now)
  {
    ProductBound(Elapsed(b.last, now), b.burst, b.rate);
    assert Refill(b, now).tokens == b.burst;
    NewIsFull(rate, burst, now);
  }

  lemma NewIsFull(rate: real, burst: nat, now: Time)
    ensures Refill(New(rate, burst, now), now).tokens == Burst(burst)
  {
    assert Elapsed(now, now) * Rate(rate) == 0.0;
  }

  /** A wait is exact: a bucket nobody else draws on gives its next token once that long has passed and not before. */
  lemma WaitIsExact(b: TokenBucket, now: Time, later: Time)
    requires now <= later && TryTake(b, now).1.Wait?
    ensures TryTake(TryTake(b, now).0, later).1 == Taken <==> later >= now + TryTake(b, now).1.seconds
    ensures TryTake(b, now).1.seconds > 0.0
  {
    var b' := TryTake(b, now).0;
    var need := 1.0 - b'.tokens;
    QuotientExact(later - now, need, b'.rate);
    QuotientExact(0.0, need, b'.rate);
    assert TryTake(b', later).1 == Taken <==> b'.tokens + (later - now) * b'.rate >= 1.0;
  }

  /** The tokens there at `now`. */
  function Level(b: TokenBucket, now: Time): (r: real)
    ensures 0.0 <= r <= b.burst
  {
    Refill(b, now).tokens
  }

  function Earned(rate: real, from: Time, to: Time): real { (to - from) * rate }

  lemma EarnedAdds(rate: real, from: Time, mid: Time, to: Time)
    ensures Earned(rate, from, mid) + Earned(rate, mid, to) == Earned(rate, from, to)
  {
  }

  lemma EarnedGrows(rate: real, from: Time, to: Time)
    requires 0.0 < rate && from <= to
    ensures Earned(rate, from, to) >= 0.0
  {
    Monotone(0.0, to - from, rate);
  }

  lemma LevelGrows(b: TokenBucket, from: Time, to: Time)
    requires b.last <= from <= to
    ensures Level(b, to) <= Level(b, from) + Earned(b.rate, from, to)
  {
    EarnedAdds(b.rate, b.last, from, to);
    Monotone(0.0, to - from, b.rate);
  }

  lemma TakingCosts(b: TokenBucket, now: Time)
    ensures var (b', a) := TryTake(b, now);
            Level(b', now) == Level(b, now) - (if a == Taken then 1.0 else 0.0)
  {
    var b' := TryTake(b, now).0;
    assert Elapsed(b'.last, now) * b'.rate == 0.0;
  }
}
