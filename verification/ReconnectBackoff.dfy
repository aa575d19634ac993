/** The bounded reconnect policy of one endpoint listener: how long the wait before the
    n-th consecutive retry is, and how long all the waits of one failing run are together. */
module ReconnectBackoff {
  import opened Wrappers

  const NANOS_PER_SECOND := 1_000_000_000
  // The largest duration: u64::MAX whole seconds and 999_999_999 nanoseconds.
  const MAX_DURATION := 0xFFFF_FFFF_FFFF_FFFF * NANOS_PER_SECOND + 999_999_999

  /** A time span in nanoseconds. */
  type Duration = d: nat | d <= MAX_DURATION

  datatype ReconnectPolicy = ReconnectPolicy(
    baseInterval: Duration,
    factor: nat,
    maxInterval: Duration,
    maxAttempts: nat)

  /** The production policy. */
  const DEFAULT_POLICY := ReconnectPolicy(NANOS_PER_SECOND, 2, 60 * NANOS_PER_SECOND, 10)

  function Min(a: nat, b: nat): nat {
    if a <= b then a else b
  }

  function Pow(b: nat, e: nat): nat {
    if e == 0 then 1 else b * Pow(b, e - 1)
  }

  /** Multiplication that fails when the product is not a duration. */
  function CheckedMul(d: Duration, k: nat): Option<Duration> {
    if d * k <= MAX_DURATION then Some(d * k) else None
  }

  /** The capped exponential backoff that the policy describes. */
  function CappedExponential(policy: ReconnectPolicy, failures: nat): Duration {
    Min(policy.baseInterval * Pow(policy.factor, if failures == 0 then 0 else failures - 1), policy.maxInterval)
  }

  /** The wait before the `failures`-th consecutive retry. The cap is only ever applied to a
      product, so a base interval at or above the cap is returned as it is. */
  function Delay(policy: ReconnectPolicy, failures: nat): Duration {
    if policy.baseInterval >= policy.maxInterval then policy.baseInterval
    else CappedExponential(policy, failures)
  }

  lemma {:induction false} PowPositive(b: nat, e: nat)
    requires b >= 1
    ensures Pow(b, e) >= 1
  {
    if e > 0 {
      PowPositive(b, e - 1);
    }
  }

  lemma {:induction false} PowMonotone(b: nat, e: nat, e': nat)
    requires b >= 1 && e <= e'
    ensures Pow(b, e) <= Pow(b, e')
  {
    if e < e' {
      PowMonotone(b, e, e' - 1);
      PowPositive(b, e' - 1);
      assert Pow(b, e' - 1) <= b * Pow(b, e' - 1);
    }
  }

  lemma MulMonotone(a: nat, x: nat, y: nat)
    requires x <= y
    ensures a * x <= a * y
  {
  }

  lemma MulThrough(a: nat, f: nat, p: nat)
    ensures a * p * f == a * (f * p)
  {
  }

  /** Multiplying an already capped value and capping again is the same as capping once. */
  lemma CapThenMultiply(policy: ReconnectPolicy, k: nat)
    requires policy.baseInterval * Pow(policy.factor, k) < policy.maxInterval
    ensures policy.baseInterval * Pow(policy.factor, k) * policy.factor
         == policy.baseInterval * Pow(policy.factor, k + 1)
  {
    MulThrough(policy.baseInterval, policy.factor, Pow(policy.factor, k));
  }

  /** Once the exponential has reached the cap it stays there. */
  lemma CapIsAbsorbing(policy: ReconnectPolicy, k: nat, k': nat)
    requires policy.factor >= 1 && k <= k'
    requires policy.maxInterval <= policy.baseInterval * Pow(policy.factor, k)
    ensures policy.maxInterval <= policy.baseInterval * Pow(policy.factor, k')
  {
    PowMonotone(policy.factor, k, k');
    MulMonotone(policy.baseInterval, Pow(policy.factor, k), Pow(policy.factor, k'));
  }

  /** The early-exit loop with a multiplication that may overflow. */
  method ComputeDelay(policy: ReconnectPolicy, failures: nat) returns (delay: Duration)
    ensures delay == Delay(policy, failures)
  {
    delay := policy.baseInterval;
    var applied := 1;
    while applied < failures && delay < policy.maxInterval
      invariant 1 <= applied && (applied <= failures || applied == 1)
      invariant policy.baseInterval >= policy.maxInterval ==> applied == 1 && delay == policy.baseInterval
      invariant policy.baseInterval < policy.maxInterval ==>
                  delay == Min(policy.baseInterval * Pow(policy.factor, applied - 1), policy.maxInterval)
      decreases failures - applied
    {
      CapThenMultiply(policy, applied - 1);
      var product := CheckedMul(delay, policy.factor);
      var raised := if product.Some? then product.value else policy.maxInterval;
      delay := if raised <= policy.maxInterval then raised else policy.maxInterval;
      applied := applied + 1;
    }
    if policy.factor >= 1 && policy.baseInterval < policy.maxInterval && applied < failures {
      // The loop left early, at the cap; a zero factor never gets there.
      CapIsAbsorbing(policy, applied - 1, failures - 1);
    }
  }

  /** The loop is the documented capped exponential exactly for the policies whose base interval
      does not exceed the cap, unless a zero factor meets a positive base at the cap. */
  lemma LoopIsCappedExponentialExactly(policy: ReconnectPolicy)
    ensures (forall n :: n >= 1 ==> Delay(policy, n) == CappedExponential(policy, n))
       <==> policy.baseInterval <= policy.maxInterval &&
            (policy.factor >= 1 || policy.baseInterval < policy.maxInterval || policy.baseInterval == 0)
  {
    var base, cap := policy.baseInterval, policy.maxInterval;
    assert Pow(policy.factor, 0) == 1;
    if base > cap {
      assert Delay(policy, 1) != CappedExponential(policy, 1);
    } else if base == cap && policy.factor == 0 && base > 0 {
      assert Pow(0, 1) == 0;
      assert Delay(policy, 2) != CappedExponential(policy, 2);
    } else if base == cap {
      forall n: nat | n >= 1 ensures Delay(policy, n) == CappedExponential(policy, n) {
        if policy.factor >= 1 {
          CapIsAbsorbing(policy, 0, n - 1);
        } else {
          assert base == 0;
        }
      }
    }
  }

  lemma DelayGrows(policy: ReconnectPolicy, n: nat, n': nat)
    requires policy.factor >= 1 && n <= n'
    ensures Delay(policy, n) <= Delay(policy, n')
  {
    var k, k' := if n == 0 then 0 else n - 1, if n' == 0 then 0 else n' - 1;
    PowMonotone(policy.factor, k, k');
    MulMonotone(policy.baseInterval, Pow(policy.factor, k), Pow(policy.factor, k'));
  }

  /** Waits never shrink as failures accumulate, exactly unless a zero factor meets a positive base
      below the cap. */
  lemma DelayIsMonotoneExactly(policy: ReconnectPolicy)
    ensures (forall n: nat, n': nat | n <= n' :: Delay(policy, n) <= Delay(policy, n'))
       <==> policy.factor >= 1 || policy.baseInterval == 0 || policy.baseInterval >= policy.maxInterval
  {
    if policy.factor >= 1 {
      forall n: nat, n': nat | n <= n' ensures Delay(policy, n) <= Delay(policy, n') {
        DelayGrows(policy, n, n');
      }
    } else if 0 < policy.baseInterval < policy.maxInterval {
      assert Pow(0, 0) == 1 && Pow(0, 1) == 0;
      assert Delay(policy, 1) > Delay(policy, 2);
    }
  }

  /** No wait exceeds the cap, exactly when the base interval does not. */
  lemma DelayIsCappedExactly(policy: ReconnectPolicy)
    ensures (forall n: nat :: Delay(policy, n) <= policy.maxInterval) <==> policy.baseInterval <= policy.maxInterval
  {
    if policy.baseInterval > policy.maxInterval {
      assert Delay(policy, 1) > policy.maxInterval;
    }
  }

  /** The waits before retries 1, 2, ..., n. */
  function Delays(policy: ReconnectPolicy, n: nat): (waits: seq<Duration>)
    ensures |waits| == n
    ensures forall i :: 0 <= i < n ==> waits[i] == Delay(policy, i + 1)
  {
    if n == 0 then [] else Delays(policy, n - 1) + [Delay(policy, n)]
  }

  function Sum(waits: seq<Duration>): nat {
    if waits == [] then 0 else Sum(waits[..|waits| - 1]) + waits[|waits| - 1]
  }

  lemma SumDelaysStep(policy: ReconnectPolicy, n: nat)
    ensures Sum(Delays(policy, n + 1)) == Sum(Delays(policy, n)) + Delay(policy, n + 1)
  {
    assert Delays(policy, n + 1)[..n] == Delays(policy, n);
  }

  /** The nine waits of a production run that gives up: 1+2+4+8+16+32+60+60+60 seconds. */
  lemma ProductionWaitsSumTo243Seconds()
    ensures Sum(Delays(DEFAULT_POLICY, DEFAULT_POLICY.maxAttempts - 1)) == 243 * NANOS_PER_SECOND
  {
    var p := DEFAULT_POLICY;
    assert Pow(2, 1) == 2 && Pow(2, 2) == 4 && Pow(2, 3) == 8 && Pow(2, 4) == 16;
    assert Pow(2, 5) == 32 && Pow(2, 6) == 64 && Pow(2, 7) == 128 && Pow(2, 8) == 256;
    assert Delay(p, 1) == 1 * NANOS_PER_SECOND && Delay(p, 2) == 2 * NANOS_PER_SECOND;
    assert Delay(p, 3) == 4 * NANOS_PER_SECOND && Delay(p, 4) == 8 * NANOS_PER_SECOND;
    assert Delay(p, 5) == 16 * NANOS_PER_SECOND && Delay(p, 6) == 32 * NANOS_PER_SECOND;
    assert Delay(p, 7) == Delay(p, 8) == Delay(p, 9) == 60 * NANOS_PER_SECOND;
    assert Sum(Delays(p, 0)) == 0;
    SumDelaysStep(p, 0); SumDelaysStep(p, 1); SumDelaysStep(p, 2);
    SumDelaysStep(p, 3); SumDelaysStep(p, 4); SumDelaysStep(p, 5);
    SumDelaysStep(p, 6); SumDelaysStep(p, 7); SumDelaysStep(p, 8);
  }
}
