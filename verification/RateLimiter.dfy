/**
 The token-bucket rate limiter of the convergence monitor, with its integer remainder.
 Instants are nanoseconds of the monotonic clock.
 */
module RateLimiter {

  const MINUTE: nat := 60_000_000_000

  datatype Bucket = Bucket(tokens: nat, lastRefill: nat, remainder: nat, lastTouched: nat)

  predicate Sane(max: nat, b: Bucket) {
    b.tokens <= max && b.remainder < MINUTE && b.lastRefill <= b.lastTouched
  }

  function Full(max: nat, now: nat): Bucket {
    Bucket(max, now, 0, now)
  }

  function Elapsed(b: Bucket, now: nat): nat {
    if now > b.lastRefill then now - b.lastRefill else 0
  }

  /** Credit earned since the last refill, in token-nanoseconds per minute. */
  function Scaled(max: nat, b: Bucket, now: nat): nat {
    Elapsed(b, now) * max + b.remainder
  }

  function Refill(max: nat, b: Bucket, now: nat): nat {
    var whole := Scaled(max, b, now) / MINUTE;
    if whole < max then whole else max
  }

  /** The bucket after the refill part of a call. */
  function Touch(max: nat, b: Bucket, now: nat): Bucket {
    if Elapsed(b, now) == 0 then b.(lastTouched := now)
    else
      var refill := Refill(max, b, now);
      var remainder := Scaled(max, b, now) % MINUTE;
      if refill > 0 then
        Bucket(if b.tokens + refill < max then b.tokens + refill else max, now, remainder, now)
      else b.(remainder := remainder, lastTouched := now)
  }

  /** The bucket after a whole call: a token is taken if there is one. */
  function Consume(max: nat, b: Bucket, now: nat): Bucket {
    var touched := Touch(max, b, now);
    if touched.tokens == 0 then touched else touched.(tokens := touched.tokens - 1)
  }

  class Limiter {
    var buckets: map<string, Bucket>
    const maxPerMin: nat
    var clock: nat  // the latest reading of the monotonic clock, which never goes back

    ghost predicate Valid()
      reads this
    {
      forall id :: id in buckets ==> Sane(maxPerMin, buckets[id]) && buckets[id].lastTouched <= clock
    }

    constructor (maxPerMin: nat)
      ensures Valid() && buckets == map[] && this.maxPerMin == maxPerMin && clock == 0
    {
      buckets, this.maxPerMin, clock := map[], maxPerMin, 0;
    }

    /** What a call at `now` finds: the connection's bucket, or a full one. */
    function Found(id: string, now: nat): Bucket
      reads this
    {
      if id in buckets then buckets[id] else Full(maxPerMin, now)
    }

    method TryConsumeAt(id: string, now: nat) returns (ok: bool)
      requires Valid() && clock <= now
      modifies this
      ensures Valid() && clock == now
      ensures ok <==> Touch(maxPerMin, old(Found(id, now)), now).tokens > 0
      ensures buckets == old(buckets)[id := Consume(maxPerMin, old(Found(id, now)), now)]
    {
      clock := now;
      var bucket := if id in buckets then buckets[id] else Full(maxPerMin, now);
      TouchIsSane(maxPerMin, bucket, now);
      var elapsed := if now > bucket.lastRefill then now - bucket.lastRefill else 0;
      if elapsed > 0 {
        var scaled := elapsed * maxPerMin + bucket.remainder;
        var whole := scaled / MINUTE;
        var refill := if whole < maxPerMin then whole else maxPerMin;
        bucket := bucket.(remainder := scaled % MINUTE);
        if refill > 0 {
          var tokens := if bucket.tokens + refill < maxPerMin then bucket.tokens + refill else maxPerMin;
          bucket := bucket.(tokens := tokens, lastRefill := now);
        }
      }
      bucket := bucket.(lastTouched := now);
      ok := bucket.tokens > 0;
      if ok {
        bucket := bucket.(tokens := bucket.tokens - 1);
      }
      buckets := buckets[id := bucket];
    }

    method PruneIdleAt(now: nat, horizon: nat)
      requires Valid() && clock <= now
      modifies this
      ensures Valid() && clock == now
      ensures forall id :: id in buckets <==> id in old(buckets) && now - old(buckets)[id].lastTouched < horizon
      ensures forall id :: id in buckets ==> buckets[id] == old(buckets)[id]
    {
      clock := now;
      buckets := map id | id in buckets && now - buckets[id].lastTouched < horizon :: buckets[id];
    }
  }

  lemma TouchIsSane(max: nat, b: Bucket, now: nat)
    requires Sane(max, b) && b.lastTouched <= now
    ensures Sane(max, Touch(max, b, now)) && Touch(max, b, now).lastTouched == now
  {
  }

  // ---------------------------------------------------------------- is credit exact?

  /**
   What the bucket can have handed out by `horizon`, in token-nanoseconds: tokens held, remainder
   held, and what accrues until then.  An exact limiter lowers this only by the tokens it grants.
   */
  function Credit(max: nat, b: Bucket, horizon: nat): int {
    b.tokens * MINUTE + b.remainder + (horizon - b.lastRefill) * max
  }

  /** The refill would lift the bucket above its capacity. */
  predicate Overflows(max: nat, b: Bucket, now: nat) {
    b.tokens + Scaled(max, b, now) / MINUTE > max
  }

  /** Time has passed but not enough for a token: the remainder is stored and the clock is not moved. */
  predicate Recounts(max: nat, b: Bucket, now: nat) {
    Elapsed(b, now) > 0 && Refill(max, b, now) == 0 && max > 0
  }

  /** Unless the bucket overflows, a call keeps credit exact if and only if it does not recount. */
  lemma CreditStep(max: nat, b: Bucket, now: nat, horizon: nat)
    requires Sane(max, b) && b.lastRefill <= now <= horizon && !Overflows(max, b, now)
    ensures Credit(max, Touch(max, b, now), horizon) ==
            Credit(max, b, horizon) + if Recounts(max, b, now) then Elapsed(b, now) * max else 0
    ensures Credit(max, Touch(max, b, now), horizon) == Credit(max, b, horizon) <==> !Recounts(max, b, now)
  {
    var e, t := Elapsed(b, now), Touch(max, b, now);
    var scaled := Scaled(max, b, now);
    assert (horizon - b.lastRefill) * max == (horizon - now) * max + (now - b.lastRefill) * max;
    assert scaled == scaled / MINUTE * MINUTE + scaled % MINUTE;
    if Recounts(max, b, now) {
      assert e * max > 0;
    }
  }

  /** What a sequence of calls does to one bucket. */
  datatype Usage = Usage(bucket: Bucket, granted: nat, recounted: nat)

  function Use(max: nat, b: Bucket, times: seq<nat>): Usage
    decreases |times|
  {
    if times == [] then Usage(b, 0, 0)
    else
      var now := times[0];
      var rest := Use(max, Consume(max, b, now), times[1..]);
      rest.(granted := rest.granted + if Touch(max, b, now).tokens > 0 then 1 else 0,
            recounted := rest.recounted + if Recounts(max, b, now) then Elapsed(b, now) * max else 0)
  }

  /** The calls come in order of time, before the horizon, and none of them overflows the bucket. */
  predicate InOrder(max: nat, b: Bucket, times: seq<nat>, horizon: nat)
    decreases |times|
  {
    times == [] ||
    (&& b.lastTouched <= times[0] <= horizon && !Overflows(max, b, times[0])
     && InOrder(max, Consume(max, b, times[0]), times[1..], horizon))
  }

  predicate EveryCallRefills(max: nat, b: Bucket, times: seq<nat>)
    decreases |times|
  {
    times == [] || (!Recounts(max, b, times[0]) && EveryCallRefills(max, Consume(max, b, times[0]), times[1..]))
  }

  /** Over any run of calls: what is granted and kept is what was earned plus what was counted again. */
  lemma {:induction false} CreditLaw(max: nat, b: Bucket, times: seq<nat>, horizon: nat)
    requires Sane(max, b) && InOrder(max, b, times, horizon)
    ensures var u := Use(max, b, times);
            && Credit(max, u.bucket, horizon) + u.granted * MINUTE == Credit(max, b, horizon) + u.recounted
            && (u.recounted == 0 <==> EveryCallRefills(max, b, times))
    decreases |times|
  {
    if times != [] {
      var now := times[0];
      TouchIsSane(max, b, now);
      CreditStep(max, b, now, horizon);
      CreditLaw(max, Consume(max, b, now), times[1..], horizon);
    }
  }

  /** As above, where calls may also find the bucket overflowing. */
  predicate Ordered(max: nat, b: Bucket, times: seq<nat>, horizon: nat)
    decreases |times|
  {
    times == [] ||
    (b.lastTouched <= times[0] <= horizon && Ordered(max, Consume(max, b, times[0]), times[1..], horizon))
  }

  /** Overflow only loses credit, so no run at all is granted more than it earned plus what was recounted. */
  lemma {:induction false} CreditBound(max: nat, b: Bucket, times: seq<nat>, horizon: nat)
    requires Sane(max, b) && Ordered(max, b, times, horizon)
    ensures var u := Use(max, b, times);
            && Credit(max, u.bucket, horizon) + u.granted * MINUTE <= Credit(max, b, horizon) + u.recounted
            && (u.recounted == 0 <==> EveryCallRefills(max, b, times))
            && Sane(max, u.bucket) && (u.bucket.lastTouched <= horizon || times == [])
    decreases |times|
  {
    if times != [] {
      var now := times[0];
      TouchIsSane(max, b, now);
      if Overflows(max, b, now) {
        OverflowLoses(max, b, now, horizon);
      } else {
        CreditStep(max, b, now, horizon);
      }
      CreditBound(max, Consume(max, b, now), times[1..], horizon);
    }
  }

  lemma OverflowLoses(max: nat, b: Bucket, now: nat, horizon: nat)
    requires Sane(max, b) && b.lastRefill <= now <= horizon && Overflows(max, b, now)
    ensures Credit(max, Touch(max, b, now), horizon) <= Credit(max, b, horizon) && !Recounts(max, b, now)
  {
    var scaled := Scaled(max, b, now);
    assert (horizon - b.lastRefill) * max == (horizon - now) * max + (now - b.lastRefill) * max;
    assert scaled == scaled / MINUTE * MINUTE + scaled % MINUTE;
    assert (b.tokens + scaled / MINUTE) * MINUTE >= max * MINUTE;
  }

  /** The promised rate: without recounting, grants never exceed the tokens held plus those earned. */
  lemma RateGuarantee(max: nat, b: Bucket, times: seq<nat>, horizon: nat)
    requires Sane(max, b) && b.lastTouched <= horizon && Ordered(max, b, times, horizon)
    requires EveryCallRefills(max, b, times)
    ensures Use(max, b, times).granted * MINUTE <= Credit(max, b, horizon)
  {
    CreditBound(max, b, times, horizon);
    CreditIsNatural(max, Use(max, b, times).bucket, horizon);
  }

  /**
   From the first contact on: a full bucket, and then so many tokens per 60 seconds, as long as every
   call with time to count refills.
   */
  lemma RateFromFirstContact(max: nat, start: nat, times: seq<nat>, horizon: nat)
    requires start <= horizon && Ordered(max, Full(max, start), times, horizon)
    requires EveryCallRefills(max, Full(max, start), times)
    ensures Use(max, Full(max, start), times).granted * 60_000_000_000 <= max * (60_000_000_000 + horizon - start)
  {
    RateGuarantee(max, Full(max, start), times, horizon);
    assert max * (60_000_000_000 + horizon - start) == max * 60_000_000_000 + (horizon - start) * max;
  }

  lemma CreditIsNatural(max: nat, b: Bucket, horizon: nat)
    requires Sane(max, b) && b.lastTouched <= horizon
    ensures Credit(max, b, horizon) >= 0
  {
    assert (horizon - b.lastRefill) * max >= 0;
  }

  /**
   The failing case, from the first contact on: one token a minute, and calls at 0, 30 and 31 seconds.
   The third is granted, though two tokens have not been earned.
   */
  lemma PollingBeatsTheLimit()
    ensures var first, times := Full(1, 0), [0, 30_000_000_000, 31_000_000_000];
            && Ordered(1, first, times, times[2])
            && Use(1, first, times).granted == 2
            && Credit(1, first, times[2]) == 91_000_000_000 < 2 * 60_000_000_000
  {
    var first, times := Full(1, 0), [0, 30_000_000_000, 31_000_000_000];
    var once := Consume(1, first, 0);
    assert once == Bucket(0, 0, 0, 0);
    var twice := Consume(1, once, times[1]);
    assert twice == Bucket(0, 0, MINUTE / 2, times[1]);
    assert Touch(1, twice, times[2]).tokens == 1;
    assert times[1..] == [times[1], times[2]] && times[1..][1..] == [times[2]] && times[1..][1..][1..] == [];
    assert Use(1, twice, [times[2]]).granted == 1 && Ordered(1, twice, [times[2]], times[2]);
    assert Use(1, once, times[1..]).granted == 1 && Ordered(1, once, times[1..], times[2]);
  }

  // ---------------------------------------------------------------- is pruning visible?

  /** Forgetting a bucket idle for the horizon never changes what the next call finds. */
  ghost predicate PruningInvisible(max: nat, horizon: nat) {
    forall b, next ::
      Sane(max, b) && b.lastTouched + horizon <= next ==>
        Touch(max, b, next).tokens == Touch(max, Full(max, next), next).tokens
  }

  /** That holds exactly from a minute on; only the next call is meant. */
  lemma PruningNeedsAMinute(max: nat, horizon: nat)
    ensures PruningInvisible(max, horizon) <==> horizon >= 60_000_000_000 || max == 0
  {
    if horizon >= MINUTE || max == 0 {
      forall b, next | Sane(max, b) && b.lastTouched + horizon <= next
        ensures Touch(max, b, next).tokens == Touch(max, Full(max, next), next).tokens
      {
        IdleBucketFillsUp(max, b, next);
      }
    } else {
      var b := Bucket(0, 0, 0, 0);
      assert horizon * max < MINUTE * max;
      assert Touch(max, b, horizon).tokens < max;
      assert Touch(max, Full(max, horizon), horizon).tokens == max;
      assert Sane(max, b) && b.lastTouched + horizon <= horizon;
    }
  }

  /** For all later calls to be the same, the bucket must have had no remainder either. */
  lemma PruningLeavesNoTrace(max: nat, b: Bucket, next: nat)
    requires max > 0 && Sane(max, b) && b.lastTouched + MINUTE <= next
    ensures Touch(max, b, next) == Touch(max, Full(max, next), next) <==> Scaled(max, b, next) % MINUTE == 0
  {
    IdleBucketFillsUp(max, b, next);
    assert Elapsed(b, next) * max >= MINUTE;
  }

  /** With one, the call after the next can tell: this one is granted, and refused if the bucket was pruned. */
  lemma PruningShowsLater()
    ensures var b, times := Bucket(0, 0, MINUTE - 1, 0), [MINUTE, MINUTE + 1];
            && Sane(1, b) && Use(1, b, times).granted == 2
            && Use(1, Full(1, MINUTE), times).granted == 1
  {
    var b, times := Bucket(0, 0, MINUTE - 1, 0), [MINUTE, MINUTE + 1];
    assert times[1..] == [MINUTE + 1] && times[1..][1..] == [];
    assert Consume(1, b, MINUTE) == Bucket(0, MINUTE, MINUTE - 1, MINUTE);
    assert Use(1, Bucket(0, MINUTE, MINUTE - 1, MINUTE), times[1..]).granted == 1;
    assert Consume(1, Full(1, MINUTE), MINUTE) == Bucket(0, MINUTE, 0, MINUTE);
    assert Use(1, Bucket(0, MINUTE, 0, MINUTE), times[1..]).granted == 0;
  }

  lemma IdleBucketFillsUp(max: nat, b: Bucket, next: nat)
    requires Sane(max, b) && (b.lastTouched + MINUTE <= next || (max == 0 && b.lastTouched <= next))
    ensures Touch(max, b, next).tokens == max
  {
    if max > 0 {
      assert Elapsed(b, next) * max >= MINUTE * max;
      assert Scaled(max, b, next) / MINUTE >= max;
    }
  }

  // ---------------------------------------------------------------- 32-bit tokens

  const TWO_32: nat := 0x1_0000_0000

  /**
   The sum of tokens and refill, which the source forms in 32 bits, fits.  It is only ever formed for a
   bucket that an earlier call has left.
   */
  ghost predicate SumsFit(max: nat) {
    forall b, earlier, now ::
      Sane(max, b) && b.lastTouched <= earlier <= now ==>
        Consume(max, b, earlier).tokens + Refill(max, Consume(max, b, earlier), now) < TWO_32
  }

  /** That holds exactly for limits up to 2^31 tokens per minute. */
  lemma SumsFitExactlyUpTo(max: nat)
    ensures SumsFit(max) <==> 2 * max <= TWO_32
  {
    if 2 * max > TWO_32 {
      WrapsFromTheFirstContact(max);
      assert Sane(max, Full(max, 0)) && Full(max, 0).lastTouched <= 0 <= MINUTE;
    } else {
      forall b, earlier, now | Sane(max, b) && b.lastTouched <= earlier <= now
        ensures Consume(max, b, earlier).tokens + Refill(max, Consume(max, b, earlier), now) < TWO_32
      {
        TouchIsSane(max, b, earlier);
      }
    }
  }

  /** Above that, the second call of a connection wraps if it comes a minute after the first. */
  lemma WrapsFromTheFirstContact(max: nat)
    requires 2 * max > TWO_32
    ensures var left := Consume(max, Full(max, 0), 0);
            left.tokens + Refill(max, left, MINUTE) == 2 * max - 1 >= TWO_32
  {
    var left := Consume(max, Full(max, 0), 0);
    assert left == Bucket(max - 1, 0, 0, 0);
    assert Scaled(max, left, MINUTE) == MINUTE * max;
  }
}
