/**
 The throttler shared by all threads of a transfer (Throttler.cpp), with fixed rates.
 Rates, times and progress are real numbers; the token bucket is an integer, and every value stored in it is
 cut towards zero.  Each call of calculateSleep holds the lock throughout, so a run is any sequence of
 such calls; a thread reads the clock before it gets the lock, so their times need not be in order.
 */
module Throttling {

  /** A 64-bit integer assigned from a double. */
  function Trunc(x: real): int { if x >= 0.0 then x.Floor else -((-x).Floor) }

  lemma TruncBound(x: real)
    ensures Trunc(x) as real < x + 1.0
    ensures x >= 0.0 ==> 0 <= Trunc(x) && Trunc(x) as real <= x
  {
  }

  // ---------------------------------------------------------------- what a rate allows by a given time

  /** Says which time is looked at, so that the products below are only formed for that one. */
  predicate At(t: real) { true }

  ghost predicate Scaled(allowed: real -> real, rate: real, start: real) {
    forall t {:trigger At(t)} :: At(t) ==> allowed(t) == rate * (t - start)
  }

  ghost function Line(rate: real, start: real): real -> real { (t: real) => rate * (t - start) }

  lemma LineScales(rate: real, start: real)
    ensures Scaled(Line(rate, start), rate, start)
  {
  }

  lemma AllowedAt(allowed: real -> real, rate: real, start: real, t: real)
    requires Scaled(allowed, rate, start)
    ensures allowed(t) == rate * (t - start)
  {
    assert At(t);
  }

  lemma LaterIsMore(allowed: real -> real, rate: real, start: real, now: real, later: real)
    requires Scaled(allowed, rate, start) && rate > 0.0 && now <= later
    ensures allowed(now) <= allowed(later)
  {
    AllowedAt(allowed, rate, start, now);
    AllowedAt(allowed, rate, start, later);
    Product(rate, later - now);
  }
  lemma Product(rate: real, d: real)
    requires rate > 0.0 && d >= 0.0
    ensures rate * d >= 0.0
  {
  }

  lemma NothingAtStart(allowed: real -> real, rate: real, start: real)
    requires Scaled(allowed, rate, start)
    ensures allowed(start) == 0.0
  {
    AllowedAt(allowed, rate, start, start);
  }

  /** Sleeping until the ideal time lets the average rate catch up. */
  lemma IdealTime(allowed: real -> real, rate: real, start: real, now: real, progress: real)
    requires Scaled(allowed, rate, start) && rate > 0.0 && progress > rate * (now - start)
    ensures var sleep := progress / rate - (now - start); sleep > 0.0 && allowed(now + sleep) == progress
  {
    var ideal := progress / rate;
    assert ideal * rate == progress;
    AllowedAt(allowed, rate, start, now + (ideal - (now - start)));
    Exceeds(rate, ideal, now - start);
  }
  lemma Exceeds(rate: real, a: real, b: real)
    requires rate > 0.0 && rate * a > rate * b
    ensures a > b
  {
    if a <= b { Product(rate, b - a); }
  }

  lemma Refill(allowed: real -> real, rate: real, start: real, last: real, now: real)
    requires Scaled(allowed, rate, start)
    ensures allowed(now) == allowed(last) + (now - last) * rate
  {
    AllowedAt(allowed, rate, start, last);
    AllowedAt(allowed, rate, start, now);
  }

  /** After the sleep the rate has made up for an overdrawn bucket. */
  lemma SleepRepays(allowed: real -> real, rate: real, start: real, now: real, level: int)
    requires Scaled(allowed, rate, start) && rate > 0.0 && level < 0
    ensures var sleep := -1.0 * level as real / rate;
            sleep > 0.0 && allowed(now + sleep) == allowed(now) - level as real
  {
    var sleep := -1.0 * level as real / rate;
    AllowedAt(allowed, rate, start, now);
    AllowedAt(allowed, rate, start, now + sleep);
    Distributes(rate, now - start, sleep);
    Quotient(rate, -1.0 * level as real);
    assert now + sleep - start == (now - start) + sleep;
  }
  lemma Distributes(rate: real, a: real, b: real)
    ensures rate * (a + b) == rate * a + rate * b
  {
  }
  lemma Quotient(rate: real, x: real)
    requires rate > 0.0 && x > 0.0
    ensures rate * (x / rate) == x && x / rate > 0.0
  {
    var q := x / rate;
    assert q * rate == x;
    if q <= 0.0 { Product(rate, -q); }
  }

  // ---------------------------------------------------------------- what was asked for, in the order of the lock

  /**
   One request that was let through: asked for at `now`, not before `release`; `charged` to the bucket or not, which
   held `level` afterwards.
   */
  datatype Call = Call(delta: nat, now: real, release: real, charged: bool, level: int)

  function Progress(log: seq<Call>): int {
    if log == [] then 0 else Progress(log[..|log| - 1]) + log[|log| - 1].delta
  }
  function ChargedProgress(log: seq<Call>): int {
    if log == [] then 0
    else ChargedProgress(log[..|log| - 1]) + (if log[|log| - 1].charged then log[|log| - 1].delta else 0)
  }
  function ChargedCalls(log: seq<Call>): nat {
    if log == [] then 0 else ChargedCalls(log[..|log| - 1]) + (if log[|log| - 1].charged then 1 else 0)
  }

  /** When a request is released, the average rate allows for everything asked for up to and including it. */
  ghost predicate WithinAverage(log: seq<Call>, allowed: real -> real) {
    forall i | 0 <= i < |log| :: Progress(log[..i + 1]) as real <= allowed(log[i].release)
  }
  /** And the bucket for everything charged to it, but for one lost in rounding each time. */
  ghost predicate WithinBucket(log: seq<Call>, allowed: real -> real) {
    forall i | 0 <= i < |log| && log[i].charged ::
      ChargedProgress(log[..i + 1]) as real <= allowed(log[i].release) + ChargedCalls(log[..i + 1]) as real
  }
  /** The bucket holds no more than was filled in, less what was charged, but for the rounding. */
  ghost predicate Level(tokenBucket: int, log: seq<Call>, filled: real) { Rest(log, tokenBucket, filled) <= 0.0 }

  lemma {:induction false} LogGrows(log: seq<Call>, c: Call)
    ensures Progress(log + [c]) == Progress(log) + c.delta
    ensures ChargedProgress(log + [c]) == ChargedProgress(log) + (if c.charged then c.delta else 0)
    ensures ChargedCalls(log + [c]) == ChargedCalls(log) + (if c.charged then 1 else 0)
  {
    assert (log + [c])[..|log|] == log;
  }

  lemma {:induction false} AverageGrows(log: seq<Call>, c: Call, allowed: real -> real)
    requires WithinAverage(log, allowed) && (Progress(log) + c.delta) as real <= allowed(c.release)
    ensures WithinAverage(log + [c], allowed)
  {
    var all := log + [c];
    assert all[..|log|] == log && all[..|log| + 1] == all;
    forall i | 0 <= i < |all| ensures Progress(all[..i + 1]) as real <= allowed(all[i].release) {
      if i < |log| { assert all[..i + 1] == log[..i + 1]; }
    }
  }

  lemma {:induction false} BucketGrows(log: seq<Call>, c: Call, allowed: real -> real)
    requires WithinBucket(log, allowed)
    requires c.charged ==>
             (ChargedProgress(log) + c.delta) as real <= allowed(c.release) + (ChargedCalls(log) + 1) as real
    ensures WithinBucket(log + [c], allowed)
  {
    var all := log + [c];
    assert all[..|log|] == log && all[..|log| + 1] == all;
    forall i | 0 <= i < |all| && all[i].charged
      ensures ChargedProgress(all[..i + 1]) as real <= allowed(all[i].release) + ChargedCalls(all[..i + 1]) as real
    {
      if i < |log| { assert all[..i + 1] == log[..i + 1]; }
    }
  }

  function Less(x: real, y: real): real { if x <= y then x else y }
  function More(x: real, y: real): real { if x <= y then y else x }

  /** Filling and capping the bucket, to within the rounding. */
  lemma Fill(level: int, added: real, limit: real)
    requires limit > 0.0
    ensures var full := Trunc(level as real + added); var held := if full as real > limit then Trunc(limit) else full;
            && held as real <= limit
            && Less(limit, level as real + added) - 1.0 < held as real < level as real + added + 1.0
  {
    TruncBound(level as real + added);
    TruncBound(limit);
  }

  // ---------------------------------------------------------------- what the bucket lets through at a time

  /** What was charged up to and including call `i` and what is left, less what was filled in and the rounding. */
  ghost function Balance(log: seq<Call>, i: nat, allowed: real -> real): real
    requires i < |log|
  {
    Rest(log[..i + 1], log[i].level, allowed(log[i].now))
  }
  ghost function Rest(log: seq<Call>, level: int, filled: real): real {
    ChargedProgress(log) as real + level as real - filled - ChargedCalls(log) as real
  }

  /** The balance never goes up: tokens come from filling only. */
  ghost predicate Falling(log: seq<Call>, allowed: real -> real) {
    forall i, j | 0 <= i <= j < |log| && log[i].charged && log[j].charged ::
      Balance(log, j, allowed) <= Balance(log, i, allowed)
  }
  ghost predicate Below(log: seq<Call>, allowed: real -> real, rest: real) {
    forall i | 0 <= i < |log| && log[i].charged :: rest <= Balance(log, i, allowed)
  }
  /** There was no more than `limit` in the bucket, and an overdrawn one is repaid before the release. */
  ghost predicate Proper(c: Call, allowed: real -> real, limit: real) {
    && c.level as real + c.delta as real <= limit
    && allowed(c.release) == allowed(c.now) + (if c.level < 0 then -c.level else 0) as real
  }
  ghost predicate Bursts(log: seq<Call>, allowed: real -> real, limit: real) {
    Falling(log, allowed) && forall i | 0 <= i < |log| && log[i].charged :: Proper(log[i], allowed, limit)
  }

  lemma {:induction false} RestFalls(log: seq<Call>, level: int, filled: real, c: Call, filled': real)
    requires (c.level + c.delta) as real < level as real + filled' - filled + 1.0
    ensures Rest(log, c.level, filled') + c.delta as real <= Rest(log, level, filled) + 1.0
  {
  }

  lemma {:induction false} BalanceStays(log: seq<Call>, c: Call, i: nat, allowed: real -> real)
    requires i < |log|
    ensures (log + [c])[i] == log[i] && Balance(log + [c], i, allowed) == Balance(log, i, allowed)
  {
    assert (log + [c])[..i + 1] == log[..i + 1];
  }

  lemma {:induction false} BalanceNow(log: seq<Call>, c: Call, allowed: real -> real)
    ensures (log + [c])[|log|] == c
    ensures Balance(log + [c], |log|, allowed) == Rest(log + [c], c.level, allowed(c.now))
  {
    assert (log + [c])[..|log| + 1] == log + [c];
  }

  lemma {:induction false} BurstsGrow(log: seq<Call>, c: Call, allowed: real -> real, limit: real, rest: real)
    requires Bursts(log, allowed, limit) && Below(log, allowed, rest)
    requires c.charged ==> Proper(c, allowed, limit) && Rest(log + [c], c.level, allowed(c.now)) <= rest
    ensures Bursts(log + [c], allowed, limit)
    ensures var rest' := if c.charged then Rest(log + [c], c.level, allowed(c.now)) else rest;
            Below(log + [c], allowed, rest')
  {
    var all := log + [c];
    BalanceNow(log, c, allowed);
    forall i | 0 <= i < |log| ensures all[i] == log[i] && Balance(all, i, allowed) == Balance(log, i, allowed) {
      BalanceStays(log, c, i, allowed);
    }
  }

  // ---------------------------------------------------------------- the throttler

  class Throttler {
    const avgRatePerSec: real
    const bucketRatePerSec: real
    const tokenBucketLimit: real
    const singleRequestLimit: nat
    var startTime: real
    var lastFillTime: real
    var progress: int
    var tokenBucket: int
    var refCount: int
    ghost var log: seq<Call>                 // since the last reset
    ghost var average: real -> real          // what the two rates allow by a given time
    ghost var bucket: real -> real

    predicate BucketInForce() { bucketRatePerSec > 0.0 && tokenBucketLimit > 0.0 }

    ghost predicate Valid()
      reads this
    {
      Pending(0)
    }

    /** The progress counter is ahead of the log by `delta`. */
    ghost predicate Pending(delta: nat)
      reads this
    {
      && Scaled(average, avgRatePerSec, startTime) && Scaled(bucket, bucketRatePerSec, startTime)
      && progress == Progress(log) + delta
      && (avgRatePerSec > 0.0 ==> WithinAverage(log, average))
      && (BucketInForce() ==> WithinBucket(log, bucket) && Level(tokenBucket, log, bucket(lastFillTime)) && Charging())
    }

    ghost predicate Charging()
      reads this
    {
      && Bursts(log, bucket, tokenBucketLimit) && tokenBucket as real <= tokenBucketLimit
      && Below(log, bucket, Rest(log, tokenBucket, bucket(lastFillTime)))
    }

    constructor (avgRate: real, bucketRate: real, bucketLimit: real, singleRequestLimit: nat, now: real)
      requires singleRequestLimit > 0
      ensures Valid() && log == [] && startTime == now && refCount == 0
      ensures avgRatePerSec == avgRate && bucketRatePerSec == bucketRate && tokenBucketLimit == bucketLimit
      ensures this.singleRequestLimit == singleRequestLimit
    {
      avgRatePerSec, bucketRatePerSec, tokenBucketLimit := avgRate, bucketRate, bucketLimit;
      this.singleRequestLimit, startTime := singleRequestLimit, now;
      lastFillTime, progress, tokenBucket, refCount, log := now, 0, 0, 0, [];
      average, bucket := Line(avgRate, now), Line(bucketRate, now);
      new;
      LineScales(avgRate, now);
      LineScales(bucketRate, now);
      NothingAtStart(bucket, bucketRatePerSec, startTime);
    }

    /** The first of the transfers that share the throttler starts it afresh. */
    method StartTransfer(now: real)
      requires Valid()
      modifies this
      ensures Valid() && refCount == old(refCount) + 1
      ensures if old(refCount) == 0
              then log == [] && startTime == now && lastFillTime == now && tokenBucket == 0 && progress == 0
              else unchanged(`log, `startTime, `lastFillTime, `tokenBucket, `progress)
    {
      if refCount == 0 {
        ResetState(now);
      }
      refCount := refCount + 1;
    }

    method ResetState(now: real)
      modifies this`startTime, this`lastFillTime, this`progress, this`tokenBucket, this`log, this`average, this`bucket
      ensures Valid() && log == [] && startTime == now && lastFillTime == now && tokenBucket == 0 && progress == 0
    {
      startTime, lastFillTime, progress, tokenBucket := now, now, 0, 0;
      log, average, bucket := [], Line(avgRatePerSec, now), Line(bucketRatePerSec, now);
      LineScales(avgRatePerSec, now);
      LineScales(bucketRatePerSec, now);
      NothingAtStart(bucket, bucketRatePerSec, startTime);
    }

    method EndTransfer()
      requires Valid() && refCount > 0
      modifies this`refCount
      ensures Valid() && refCount == old(refCount) - 1
    {
      refCount := refCount - 1;
    }

    /**
     The time to sleep, or something not positive; the request counts as released once it is over.  It is the time the
     average rate is behind, if it is; or else the time it takes to repay the bucket, if it is overdrawn.
     */
    method CalculateSleep(deltaProgress: nat, now: real) returns (sleep: real, ghost c: Call)
      requires Valid()
      modifies this`progress, this`tokenBucket, this`lastFillTime, this`log
      ensures Valid()
      ensures refCount <= 0 ==> log == old(log) && sleep <= 0.0
      ensures refCount > 0 ==> log == old(log) + [c] && c.delta == deltaProgress && c.now == now && Answers(c, sleep)
      ensures if refCount > 0 && c.charged
              then lastFillTime == now && Refilled(old(tokenBucket), old(lastFillTime), tokenBucket + deltaProgress)
              else lastFillTime == old(lastFillTime) && tokenBucket == old(tokenBucket)
    {
      c := Call(deltaProgress, now, now, false, tokenBucket);
      if refCount <= 0 {
        return -1.0, c;
      }
      progress := progress + deltaProgress;
      var avgThrottlerSleep := AverageThrottler(now);
      if avgThrottlerSleep > 0.0 {
        c := c.(release := now + avgThrottlerSleep);
        Record(c);
        return avgThrottlerSleep, c;
      }
      if BucketInForce() {
        sleep, c := ChargeBucket(deltaProgress, now);
        return sleep, c;
      }
      Record(c);
      return -1.0, c;
    }

    /** How the request of call `c`, now recorded, is answered. */
    ghost predicate Answers(c: Call, sleep: real)
      reads this`average, this`bucket, this`tokenBucket, this`progress
    {
      && c.level == tokenBucket && c.release == (if sleep > 0.0 then c.now + sleep else c.now)
      && (c.charged <==> !Ahead(c.now) && BucketInForce())
      && (sleep > 0.0 <==> Ahead(c.now) || (c.charged && c.level < 0))
      && (sleep > 0.0 && !c.charged ==> average(c.release) == progress as real)
      && (sleep > 0.0 && c.charged ==> bucket(c.release) == bucket(c.now) - c.level as real)
    }

    /** There is an average rate and it does not allow for so much progress yet. */
    ghost predicate Ahead(now: real)
      reads this`average, this`progress
    {
      avgRatePerSec > 0.0 && progress as real > average(now)
    }

    /** The bucket held `level` at `last`; filled up to the limit it now holds `held`, to within one. */
    ghost predicate Refilled(level: int, last: real, held: int)
      reads this`bucket, this`lastFillTime
    {
      var filled := level as real + bucket(lastFillTime) - bucket(last);
      held as real <= tokenBucketLimit && Less(tokenBucketLimit, filled) - 1.0 < held as real < filled + 1.0
    }

    method AverageThrottler(now: real) returns (sleep: real)
      requires Scaled(average, avgRatePerSec, startTime)
      ensures sleep > 0.0 <==> Ahead(now)
      ensures sleep > 0.0 ==> average(now + sleep) == progress as real
    {
      var elapsedSeconds := now - startTime;
      if avgRatePerSec <= 0.0 {
        return -1.0;
      }
      var allowedProgress := avgRatePerSec * elapsedSeconds;
      AllowedAt(average, avgRatePerSec, startTime, now);
      if progress as real > allowedProgress {
        var idealTime := progress as real / avgRatePerSec;
        IdealTime(average, avgRatePerSec, startTime, now, progress as real);
        return idealTime - elapsedSeconds;
      }
      return -1.0;
    }

    /** The second half of calculateSleep, when the average rate asks for no sleep. */
    method ChargeBucket(deltaProgress: nat, now: real) returns (sleep: real, ghost c: Call)
      requires Pending(deltaProgress) && BucketInForce() && !Ahead(now)
      modifies this`tokenBucket, this`lastFillTime, this`log
      ensures Valid() && lastFillTime == now
      ensures Refilled(old(tokenBucket), old(lastFillTime), tokenBucket + deltaProgress)
      ensures log == old(log) + [c] && c.delta == deltaProgress && c.now == now && Answers(c, sleep) && c.charged
    {
      ghost var level, filled := tokenBucket, bucket(lastFillTime);
      FillBucket(deltaProgress, now);
      sleep := PeakSleep(now);
      if avgRatePerSec > 0.0 && sleep > 0.0 { LaterIsMore(average, avgRatePerSec, startTime, now, now + sleep); }
      c := Call(deltaProgress, now, if sleep > 0.0 then now + sleep else now, true, tokenBucket);
      RestFalls(log, level, filled, c, bucket(now));
      RecordCharge(c, Rest(log, level, filled));
    }

    /** Long enough for the rate to make up for an overdrawn bucket. */
    method PeakSleep(now: real) returns (sleep: real)
      requires BucketInForce() && Scaled(bucket, bucketRatePerSec, startTime)
      ensures sleep > 0.0 <==> tokenBucket < 0
      ensures bucket(if sleep > 0.0 then now + sleep else now) ==
              bucket(now) + (if tokenBucket < 0 then -tokenBucket else 0) as real
    {
      if tokenBucket >= 0 {
        return -1.0;
      }
      SleepRepays(bucket, bucketRatePerSec, startTime, now, tokenBucket);
      sleep := -1.0 * tokenBucket as real / bucketRatePerSec;
    }

    method FillBucket(deltaProgress: nat, now: real)
      requires BucketInForce() && Scaled(bucket, bucketRatePerSec, startTime)
      modifies this`tokenBucket, this`lastFillTime
      ensures lastFillTime == now && Refilled(old(tokenBucket), old(lastFillTime), tokenBucket + deltaProgress)
    {
      var added := (now - lastFillTime) * bucketRatePerSec;
      Refill(bucket, bucketRatePerSec, startTime, lastFillTime, now);
      Fill(tokenBucket, added, tokenBucketLimit);
      lastFillTime := now;
      tokenBucket := Trunc(tokenBucket as real + added);
      if tokenBucket as real > tokenBucketLimit {
        tokenBucket := Trunc(tokenBucketLimit);
      }
      tokenBucket := tokenBucket - deltaProgress;
    }

    /** A request not charged to the bucket. */
    ghost method Record(c: Call)
      requires !c.charged && Pending(c.delta) && (avgRatePerSec > 0.0 ==> progress as real <= average(c.release))
      modifies this`log
      ensures Valid() && log == old(log) + [c]
    {
      LogGrows(log, c);
      if avgRatePerSec > 0.0 { AverageGrows(log, c, average); }
      if BucketInForce() {
        BucketGrows(log, c, bucket);
        BurstsGrow(log, c, bucket, tokenBucketLimit, Rest(log, tokenBucket, bucket(lastFillTime)));
      }
      log := log + [c];
    }

    /** `rest` is what the balance was before the charge. */
    ghost method RecordCharge(c: Call, rest: real)
      requires c.charged && progress == Progress(log) + c.delta && BucketInForce()
      requires Scaled(average, avgRatePerSec, startTime) && Scaled(bucket, bucketRatePerSec, startTime)
      requires avgRatePerSec > 0.0 ==> WithinAverage(log, average) && progress as real <= average(c.release)
      requires WithinBucket(log, bucket) && Bursts(log, bucket, tokenBucketLimit) && Below(log, bucket, rest)
      requires c.now == lastFillTime && c.level == tokenBucket && Proper(c, bucket, tokenBucketLimit)
      requires rest <= 0.0 && Rest(log, tokenBucket, bucket(lastFillTime)) + c.delta as real <= rest + 1.0
      modifies this`log
      ensures Valid() && log == old(log) + [c]
    {
      LogGrows(log, c);
      if avgRatePerSec > 0.0 { AverageGrows(log, c, average); }
      BucketGrows(log, c, bucket);
      BurstsGrow(log, c, bucket, tokenBucketLimit, rest);
      log := log + [c];
    }

    /** Whatever the threads asked for and when: neither limit is exceeded at any time. */
    lemma {:induction false} RatesHold(t: real)
      requires Valid() && startTime <= t
      ensures avgRatePerSec > 0.0 ==> ReleasedBy(log, t) as real <= avgRatePerSec * (t - startTime)
      ensures BucketInForce() ==>
                ChargedAndReleasedBy(log, t) as real <= bucketRatePerSec * (t - startTime) + ChargedCalls(log) as real
    {
      if avgRatePerSec > 0.0 { AverageRateHolds(log, average, avgRatePerSec, startTime, t); }
      if BucketInForce() { PeakRateHolds(log, bucket, bucketRatePerSec, startTime, t); }
    }

    /**
     The burst limit.  Between any two times, what was charged to the bucket and released is at most what the bucket can
     hold, or the first such request if that is more; the peak rate times the time between; and one for each charge
     after the first.
     */
    lemma {:induction false} BurstHolds(t1: real, t2: real) returns (i: nat, j: nat)
      requires Valid() && BucketInForce() && t1 <= t2
      ensures ReleasedBetween(log, t1, t2) == 0 || Burst(log, bucketRatePerSec, tokenBucketLimit, t1, t2, i, j)
    {
      i, j := BurstFrom(log, bucket, bucketRatePerSec, startTime, tokenBucketLimit, t1, t2);
    }

    /** limitInternal: large requests go through in pieces, at the clock readings `times`. */
    method LimitInternal(deltaProgress: nat, times: int -> real)
      requires Valid() && singleRequestLimit > 0
      modifies this`progress, this`tokenBucket, this`lastFillTime, this`log
      ensures Valid() && Progress(log) == Progress(old(log)) + if refCount > 0 then deltaProgress else 0
      ensures refCount <= 0 ==> log == old(log)
      ensures old(log) <= log && forall i | |old(log)| <= i < |log| :: 0 < log[i].delta <= singleRequestLimit
    {
      var numThrottled := 0;
      while numThrottled < deltaProgress
        invariant 0 <= numThrottled <= deltaProgress && Valid() && (refCount <= 0 ==> log == old(log))
        invariant Progress(log) == Progress(old(log)) + if refCount > 0 then numThrottled else 0
        invariant old(log) <= log && forall i | |old(log)| <= i < |log| :: 0 < log[i].delta <= singleRequestLimit
      {
        var toThrottle := if singleRequestLimit < deltaProgress - numThrottled then singleRequestLimit
                          else deltaProgress - numThrottled;
        ghost var before := log;
        var sleep, c := CalculateSleep(toThrottle, times(numThrottled));
        if refCount > 0 {
          assert log[..|before|] == before;
        }
        numThrottled := numThrottled + toThrottle;
      }
    }
  }

  // ---------------------------------------------------------------- what is released by a given time

  ghost function ReleasedBy(log: seq<Call>, t: real): int {
    if log == [] then 0
    else
      var c := log[|log| - 1];
      ReleasedBy(log[..|log| - 1], t) + (if c.release <= t then c.delta else 0)
  }
  ghost function ChargedAndReleasedBy(log: seq<Call>, t: real): int {
    if log == [] then 0
    else
      var c := log[|log| - 1];
      ChargedAndReleasedBy(log[..|log| - 1], t) + (if c.charged && c.release <= t then c.delta else 0)
  }

  /** Charged to the bucket, and released after `t1` and by `t2`. */
  predicate Within(c: Call, t1: real, t2: real) { c.charged && t1 < c.release <= t2 }
  ghost function ReleasedBetween(log: seq<Call>, t1: real, t2: real): nat {
    if log == [] then 0
    else
      var c := log[|log| - 1];
      ReleasedBetween(log[..|log| - 1], t1, t2) + (if Within(c, t1, t2) then c.delta else 0)
  }

  /** The first and the last of them, in the order of the lock. */
  lemma {:induction false} FirstAndLast(log: seq<Call>, t1: real, t2: real) returns (i: nat, j: nat)
    ensures ReleasedBetween(log, t1, t2) == 0 ||
            (i <= j < |log| && Within(log[i], t1, t2) && Within(log[j], t1, t2)
             && ReleasedBetween(log, t1, t2) <=
                log[i].delta + ChargedProgress(log[..j + 1]) - ChargedProgress(log[..i + 1]))
    decreases |log|
  {
    if log == [] {
      i, j := 0, 0;
    } else {
      var n := |log| - 1;
      var front := log[..n];
      i, j := FirstAndLast(front, t1, t2);
      assert log[..n + 1] == log;
      if ReleasedBetween(front, t1, t2) == 0 {
        i, j := n, n;
      } else {
        assert front[..i + 1] == log[..i + 1] && front[..j + 1] == log[..j + 1];
        if Within(log[n], t1, t2) {
          ProgressGrows(log, j + 1, n);
          j := n;
        }
      }
    }
  }

  /** `i` and `j` are the first and the last call of a burst that keeps the limit. */
  ghost predicate Burst(log: seq<Call>, rate: real, limit: real, t1: real, t2: real, i: nat, j: nat) {
    && i <= j < |log| && Within(log[i], t1, t2) && Within(log[j], t1, t2)
    && ReleasedBetween(log, t1, t2) as real <=
       More(limit, log[i].delta as real) + rate * (t2 - t1)
       + (ChargedCalls(log[..j + 1]) - ChargedCalls(log[..i + 1])) as real
  }

  lemma {:induction false} BurstFrom(log: seq<Call>, allowed: real -> real, rate: real, start: real, limit: real,
                                     t1: real, t2: real) returns (i: nat, j: nat)
    requires Bursts(log, allowed, limit) && Scaled(allowed, rate, start) && rate > 0.0 && t1 <= t2
    ensures ReleasedBetween(log, t1, t2) == 0 || Burst(log, rate, limit, t1, t2, i, j)
  {
    i, j := FirstAndLast(log, t1, t2);
    if ReleasedBetween(log, t1, t2) != 0 {
      BurstBetween(log, allowed, rate, start, limit, t1, t2, i, j);
      Refill(allowed, rate, start, t1, t2);
    }
  }

  lemma {:induction false} BurstBetween(log: seq<Call>, allowed: real -> real, rate: real, start: real, limit: real,
                                        t1: real, t2: real, i: nat, j: nat)
    requires Bursts(log, allowed, limit) && Scaled(allowed, rate, start) && rate > 0.0
    requires i <= j < |log| && Within(log[i], t1, t2) && Within(log[j], t1, t2)
    ensures (log[i].delta + ChargedProgress(log[..j + 1]) - ChargedProgress(log[..i + 1])) as real <=
            More(limit, log[i].delta as real) + allowed(t2) - allowed(t1)
            + (ChargedCalls(log[..j + 1]) - ChargedCalls(log[..i + 1])) as real
  {
    assert Balance(log, j, allowed) <= Balance(log, i, allowed);
    assert Proper(log[i], allowed, limit) && Proper(log[j], allowed, limit);
    LaterIsMore(allowed, rate, start, log[j].release, t2);
    LaterIsMore(allowed, rate, start, t1, log[i].release);
  }

  lemma {:induction false} ProgressGrows(log: seq<Call>, a: nat, b: nat)
    requires a <= b <= |log|
    ensures 0 <= Progress(log[..a]) <= Progress(log[..b])
    ensures 0 <= ChargedProgress(log[..a]) <= ChargedProgress(log[..b])
            && ChargedCalls(log[..a]) <= ChargedCalls(log[..b])
    decreases b
  {
    if a < b {
      ProgressGrows(log, a, b - 1);
      assert log[..b][..b - 1] == log[..b - 1];
    } else if a > 0 {
      ProgressGrows(log, a - 1, a - 1);
      assert log[..a][..a - 1] == log[..a - 1];
    }
  }

  /** Nothing is released after the last released request, and up to it at most what was asked for. */
  lemma {:induction false} ReleasedUpTo(log: seq<Call>, t: real) returns (i: int)
    ensures -1 <= i < |log| && (i >= 0 ==> log[i].release <= t)
    ensures 0 <= ReleasedBy(log, t) <= Progress(log[..i + 1])
    decreases |log|
  {
    if log == [] {
      i := -1;
      assert log[..0] == [];
    } else {
      var n := |log| - 1;
      i := ReleasedUpTo(log[..n], t);
      assert log[..n][..i + 1] == log[..i + 1];
      if log[n].release <= t {
        ProgressGrows(log, i + 1, n);
        i := n;
        assert log[..n + 1] == log;
      }
    }
  }

  lemma {:induction false} ChargedUpTo(log: seq<Call>, t: real) returns (i: int)
    ensures -1 <= i < |log| && (i >= 0 ==> log[i].release <= t && log[i].charged)
    ensures 0 <= ChargedAndReleasedBy(log, t) <= ChargedProgress(log[..i + 1])
    decreases |log|
  {
    if log == [] {
      i := -1;
      assert log[..0] == [];
    } else {
      var n := |log| - 1;
      i := ChargedUpTo(log[..n], t);
      assert log[..n][..i + 1] == log[..i + 1];
      if log[n].charged && log[n].release <= t {
        ProgressGrows(log, i + 1, n);
        i := n;
        assert log[..n + 1] == log;
      }
    }
  }

  lemma AllowedSoFar(allowed: real -> real, rate: real, start: real, t: real)
    requires Scaled(allowed, rate, start) && rate > 0.0 && start <= t
    ensures 0.0 <= allowed(t)
  {
    NothingAtStart(allowed, rate, start);
    LaterIsMore(allowed, rate, start, start, t);
  }

  lemma {:induction false} ReleasedWithinAverage(log: seq<Call>, allowed: real -> real, rate: real, start: real,
                                                 t: real)
    requires WithinAverage(log, allowed) && Scaled(allowed, rate, start) && rate > 0.0 && start <= t
    ensures ReleasedBy(log, t) as real <= allowed(t)
  {
    var i := ReleasedUpTo(log, t);
    AllowedSoFar(allowed, rate, start, t);
    if i >= 0 { LaterIsMore(allowed, rate, start, log[i].release, t); } else { assert log[..0] == []; }
  }

  /** Bytes released by time `t` never exceed the average rate times the time since the start. */
  lemma {:induction false} AverageRateHolds(log: seq<Call>, allowed: real -> real, rate: real, start: real, t: real)
    requires WithinAverage(log, allowed) && Scaled(allowed, rate, start) && rate > 0.0 && start <= t
    ensures ReleasedBy(log, t) as real <= rate * (t - start)
  {
    ReleasedWithinAverage(log, allowed, rate, start, t);
    AllowedAt(allowed, rate, start, t);
  }

  lemma {:induction false} MoreCalls(log: seq<Call>, i: nat)
    requires i < |log|
    ensures ChargedCalls(log[..i + 1]) <= ChargedCalls(log)
  {
    assert log[..|log|] == log;
    ProgressGrows(log, i + 1, |log|);
  }

  lemma {:induction false} ReleasedWithinBucket(log: seq<Call>, allowed: real -> real, rate: real, start: real, t: real)
    requires WithinBucket(log, allowed) && Scaled(allowed, rate, start) && rate > 0.0 && start <= t
    ensures ChargedAndReleasedBy(log, t) as real <= allowed(t) + ChargedCalls(log) as real
  {
    var i := ChargedUpTo(log, t);
    AllowedSoFar(allowed, rate, start, t);
    if i >= 0 {
      LaterIsMore(allowed, rate, start, log[i].release, t);
      MoreCalls(log, i);
    } else {
      assert log[..0] == [];
    }
  }

  /** Bytes charged to the bucket and released by time `t`: the peak rate times that time, and one for each charge. */
  lemma {:induction false} PeakRateHolds(log: seq<Call>, allowed: real -> real, rate: real, start: real, t: real)
    requires WithinBucket(log, allowed) && Scaled(allowed, rate, start) && rate > 0.0 && start <= t
    ensures ChargedAndReleasedBy(log, t) as real <= rate * (t - start) + ChargedCalls(log) as real
  {
    ReleasedWithinBucket(log, allowed, rate, start, t);
    AllowedAt(allowed, rate, start, t);
  }
}
