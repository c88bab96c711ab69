/** internal/retry: bounded retries with exponential backoff.

    Durations are integers in nanoseconds and float64 values are reals, so
    rounding is abstracted but the final truncation to a Duration is not. The
    operation, the context, the sleeper and the random source are functions of
    the attempt number.
 */
module Retry {
  import opened Options

  datatype Policy = Policy(maxAttempts: int, baseDelay: int, maxDelay: int, multiplier: real, jitter: real)

  function MaxAttempts(p: Policy): (n: nat)
    ensures 1 <= n
  {
    if p.maxAttempts <= 0 then 3 else p.maxAttempts
  }

  function BaseDelay(p: Policy): (d: int)
    ensures 0 < d
  {
    if p.baseDelay <= 0 then 100_000_000 else p.baseDelay
  }

  function MaxDelay(p: Policy): (d: int)
    ensures 0 < d
  {
    if p.maxDelay <= 0 then 5_000_000_000 else p.maxDelay
  }

  function Multiplier(p: Policy): (m: real)
    ensures 0.0 < m
  {
    if p.multiplier <= 0.0 then 2.0 else p.multiplier
  }

  // ---------------------------------------------------------------------
  // The delay
  // ---------------------------------------------------------------------

  function Pow(m: real, k: nat): real {
    if k == 0 then 1.0 else m * Pow(m, k - 1)
  }

  function Min(a: real, b: real): real {
    if a <= b then a else b
  }

  /** The growth loop: `steps` multiplications, cut short at the first one that
      reaches `max`. */
  function Grown(base: real, m: real, max: real, steps: nat): real
    decreases steps
  {
    if steps == 0 then base
    else if base * m >= max then max
    else Grown(base * m, m, max, steps - 1)
  }

  lemma Times(a: real, b: real)
    requires 0.0 <= a && 0.0 <= b
    ensures 0.0 <= a * b
    ensures 0.0 < a && 0.0 < b ==> 0.0 < a * b
  {
  }

  lemma Scaled(a: real, f: real)
    requires 0.0 <= a
    ensures f <= 1.0 ==> a * f <= a
    ensures 1.0 <= f ==> a <= a * f
  {
    if f <= 1.0 { Times(a, 1.0 - f); }
    if 1.0 <= f { Times(a, f - 1.0); }
  }

  lemma {:induction false} PowPositive(m: real, k: nat)
    requires 0.0 < m
    ensures 0.0 < Pow(m, k) && (1.0 <= m ==> 1.0 <= Pow(m, k))
  {
    if 0 < k {
      PowPositive(m, k - 1);
      Times(m, Pow(m, k - 1));
      Scaled(Pow(m, k - 1), m);
    }
  }

  lemma Product(base: real, m: real, k: nat)
    requires 0 < k
    ensures base * Pow(m, k) == base * m * Pow(m, k - 1)
  {
    var q := Pow(m, k - 1);
    assert Pow(m, k) == m * q;
    assert base * (m * q) == base * m * q;
  }

  lemma ReachingTakesGrowth(base: real, m: real)
    requires 0.0 < base <= base * m
    ensures 1.0 <= m
  {
    if m < 1.0 { Times(base, 1.0 - m); }
  }

  /** The plain exponential, `steps` multiplications without a cap. */
  function Exponential(base: real, m: real, steps: nat): real {
    base * Pow(m, steps)
  }

  lemma ExponentialSteps(base: real, m: real, steps: nat)
    ensures Exponential(base, m, 0) == base
    ensures 0 < steps ==> Exponential(base, m, steps) == Exponential(base * m, m, steps - 1)
  {
    if 0 < steps { Product(base, m, steps); }
  }

  lemma ExponentialGrows(base: real, m: real, steps: nat)
    requires 0.0 < base && 0.0 < m
    ensures 0.0 < Exponential(base, m, steps)
    ensures 1.0 <= m ==> base <= Exponential(base, m, steps)
    ensures 1.0 <= m ==> Exponential(base, m, steps) <= Exponential(base, m, steps + 1)
  {
    var q := Pow(m, steps);
    PowPositive(m, steps);
    Times(base, q);
    Scaled(base, q);
    if 1.0 <= m {
      Scaled(q, m);
      Times(base, m * q - q);
      assert base * (m * q - q) == base * (m * q) - base * q;
    }
  }

  /** From a base within the cap, leaving the loop early changes nothing: the
      delay is the capped exponential. */
  lemma {:induction false} GrownIsCappedExponential(base: real, m: real, max: real, steps: nat)
    requires 0.0 < base <= max && 0.0 < m
    ensures Grown(base, m, max, steps) == Min(Exponential(base, m, steps), max)
    decreases steps
  {
    ExponentialSteps(base, m, steps);
    if 0 < steps {
      var next := base * m;
      Times(base, m);
      if next >= max {
        ReachingTakesGrowth(base, m);
        ExponentialGrows(next, m, steps - 1);
      } else {
        GrownIsCappedExponential(next, m, max, steps - 1);
      }
    }
  }

  /** The cap is kept exactly when the base is within it or at least one step is
      taken: the first delay of a policy with BaseDelay above MaxDelay is not capped. */
  lemma CapKeptIff(base: real, m: real, max: real, steps: nat)
    requires 0.0 < base && 0.0 < m && 0.0 < max
    ensures Grown(base, m, max, steps) <= max <==> base <= max || 0 < steps
  {
    var next := base * m;
    Times(base, m);
    if base <= max {
      GrownIsCappedExponential(base, m, max, steps);
    } else if 0 < steps && next < max {
      GrownIsCappedExponential(next, m, max, steps - 1);
    }
  }

  /** Exactly when the delay is the capped exponential, for every base. */
  lemma CappedExponentialIff(base: real, m: real, max: real, steps: nat)
    requires 0.0 < base && 0.0 < m && 0.0 < max
    ensures Grown(base, m, max, steps) == Min(Exponential(base, m, steps), max)
            <==> base <= max || (0 < steps && (base * m < max || Exponential(base, m, steps) >= max))
  {
    ExponentialSteps(base, m, steps);
    var next := base * m;
    Times(base, m);
    if base <= max {
      GrownIsCappedExponential(base, m, max, steps);
    } else if 0 < steps && next < max {
      GrownIsCappedExponential(next, m, max, steps - 1);
    }
  }

  /** With a multiplier of at least one, delays never shrink from one attempt to the next. */
  lemma DelaysDoNotShrink(base: real, m: real, max: real, steps: nat)
    requires 0.0 < base <= max && 1.0 <= m
    ensures Grown(base, m, max, steps) <= Grown(base, m, max, steps + 1)
  {
    GrownIsCappedExponential(base, m, max, steps);
    GrownIsCappedExponential(base, m, max, steps + 1);
    ExponentialGrows(base, m, steps);
  }

  /** How far a draw in [0, 1) moves a delay. */
  function Offset(base: real, jitter: real, draw: real): real {
    (draw * 2.0 - 1.0) * jitter * base
  }

  /** `draw` is what the random source answers, if there is one. */
  function Jittered(base: real, jitter: real, draw: Option<real>): real {
    if jitter > 0.0 && draw.Some? then
      var moved := base + Offset(base, jitter, draw.value);
      if moved < 0.0 then 0.0 else moved
    else base
  }

  lemma OffsetIsBounded(base: real, jitter: real, draw: real)
    requires 0.0 <= base && 0.0 < jitter && 0.0 <= draw < 1.0
    ensures 0.0 <= jitter * base
    ensures -(jitter * base) <= Offset(base, jitter, draw) <= jitter * base
  {
    var w := jitter * base;
    Times(jitter, base);
    var f := draw * 2.0 - 1.0;
    assert f * jitter * base == f * w;
    Times(1.0 - f, w);
    Times(f + 1.0, w);
    assert (1.0 - f) * w == w - f * w && (f + 1.0) * w == f * w + w;
  }

  /** Jitter keeps a delay non-negative and within the given fraction of itself. */
  lemma JitterIsBounded(base: real, jitter: real, draw: Option<real>)
    requires 0.0 <= base && (draw.Some? ==> 0.0 <= draw.value < 1.0)
    ensures 0.0 <= Jittered(base, jitter, draw)
    ensures jitter > 0.0 ==> base - jitter * base <= Jittered(base, jitter, draw) <= base + jitter * base
    ensures jitter <= 0.0 || draw.None? ==> Jittered(base, jitter, draw) == base
  {
    if jitter > 0.0 {
      Times(jitter, base);
      if draw.Some? { OffsetIsBounded(base, jitter, draw.value); }
    }
  }

  function Delay(p: Policy, attempt: nat, draw: Option<real>): int
    requires 1 <= attempt
  {
    Jittered(Grown(BaseDelay(p) as real, Multiplier(p), MaxDelay(p) as real, attempt - 1), p.jitter, draw).Floor
  }

  /** A delay times a factor between 1 - jitter and 1 + jitter. */
  function Scaling(base: real, jitter: real, draw: real): real {
    var scaled := base * Factor(jitter, draw);
    if scaled < 0.0 then 0.0 else scaled
  }

  function Factor(jitter: real, draw: real): real {
    1.0 + (2.0 * draw - 1.0) * jitter
  }

  lemma Spread(a: real, f: real)
    ensures a * (1.0 + f) == a + f * a
  {
  }

  lemma OffsetIs(base: real, jitter: real, draw: real)
    ensures Offset(base, jitter, draw) == (Factor(jitter, draw) - 1.0) * base
  {
    assert draw * 2.0 - 1.0 == 2.0 * draw - 1.0;
    assert Factor(jitter, draw) - 1.0 == (2.0 * draw - 1.0) * jitter;
  }

  lemma JitterScales(base: real, jitter: real, draw: real)
    requires 0.0 < jitter
    ensures Jittered(base, jitter, Some(draw)) == Scaling(base, jitter, draw)
  {
    OffsetIs(base, jitter, draw);
    Spread(base, Factor(jitter, draw) - 1.0);
  }

  lemma DelayFrom(p: Policy, attempt: nat, draw: Option<real>, grown: real)
    requires 1 <= attempt
    requires grown == Grown(BaseDelay(p) as real, Multiplier(p), MaxDelay(p) as real, attempt - 1)
    ensures Delay(p, attempt, draw) == if p.jitter <= 0.0 || draw.None? then grown.Floor
                                       else Scaling(grown, p.jitter, draw.value).Floor
  {
    if p.jitter > 0.0 && draw.Some? {
      JitterScales(grown, p.jitter, draw.value);
    }
  }

  /** The delay after any attempt, from the policy's own fields: the base times the
      multiplier for each attempt before it, no more than the cap, scaled by the jitter
      and cut to whole nanoseconds. A field that is not positive stands for its default. */
  lemma DelayIs(p: Policy, attempt: nat, draw: Option<real>)
    requires 1 <= attempt
    ensures var base := if p.baseDelay <= 0 then 100_000_000 else p.baseDelay;
            var max := if p.maxDelay <= 0 then 5_000_000_000 else p.maxDelay;
            var m := if p.multiplier <= 0.0 then 2.0 else p.multiplier;
            base <= max ==>
              var capped := Min(Exponential(base as real, m, attempt - 1), max as real);
              Delay(p, attempt, draw) == if p.jitter <= 0.0 || draw.None? then capped.Floor
                                         else Scaling(capped, p.jitter, draw.value).Floor
  {
    var base, max := BaseDelay(p), MaxDelay(p);
    if base <= max {
      GrownIsCappedExponential(base as real, Multiplier(p), max as real, attempt - 1);
      DelayFrom(p, attempt, draw, Min(Exponential(base as real, Multiplier(p), attempt - 1), max as real));
    }
  }

  /** Ten nanoseconds against a cap of five. */
  lemma FirstDelayExceedsCap()
    ensures var p := Policy(3, 10, 5, 2.0, 0.0); Delay(p, 1, None) == 10 && MaxDelay(p) == 5
  {
  }

  method ComputeDelay(p: Policy, attempt: nat, draw: Option<real>) returns (d: int)
    requires 1 <= attempt
    ensures d == Delay(p, attempt, draw)
  {
    var base := BaseDelay(p) as real;
    var i := 1;
    while i < attempt
      invariant 1 <= i <= attempt
      invariant Grown(base, Multiplier(p), MaxDelay(p) as real, attempt - i)
             == Grown(BaseDelay(p) as real, Multiplier(p), MaxDelay(p) as real, attempt - 1)
    {
      base := base * Multiplier(p);
      if base >= MaxDelay(p) as real {
        base := MaxDelay(p) as real;
        break;
      }
      i := i + 1;
    }
    assert base == Grown(BaseDelay(p) as real, Multiplier(p), MaxDelay(p) as real, attempt - 1);
    if p.jitter > 0.0 && draw.Some? {
      base := base + Offset(base, p.jitter, draw.value);
      if base < 0.0 {
        base := 0.0;
      }
    }
    d := base.Floor;
  }

  // ---------------------------------------------------------------------
  // Do
  // ---------------------------------------------------------------------

  datatype Result<E> = Succeeded | Cancelled(cause: E) | NotRetryable(error: E) | Exhausted(attempts: nat, error: E)

  /** Everything Do depends on: whether the context is done at the head of an
      attempt, what the attempt returns, and what the sleep after it returns. */
  datatype World<!E> = World(
    done: nat -> Option<E>, op: nat -> Option<E>, sleep: nat -> Option<E>,
    retryable: E -> bool, draw: nat -> Option<real>)

  function Sum(s: seq<int>): int {
    if s == [] then 0 else Sum(s[..|s| - 1]) + s[|s| - 1]
  }

  /** Attempt `k` failed in a retryable way and the sleep after it was completed. */
  predicate Retried<E>(w: World<E>, k: nat) {
    && w.done(k).None? && w.op(k).Some? && w.retryable(w.op(k).value) && w.sleep(k).None?
  }

  lemma DelayWithinCap(p: Policy, attempt: nat, draw: Option<real>)
    requires 1 <= attempt && BaseDelay(p) <= MaxDelay(p) && (p.jitter <= 0.0 || draw.None?)
    ensures 0 <= Delay(p, attempt, draw) <= MaxDelay(p)
  {
    GrownIsCappedExponential(BaseDelay(p) as real, Multiplier(p), MaxDelay(p) as real, attempt - 1);
    ExponentialGrows(BaseDelay(p) as real, Multiplier(p), attempt - 1);
  }

  lemma {:induction false} SumIsBounded(s: seq<int>, bound: int)
    requires forall k :: 0 <= k < |s| ==> 0 <= s[k] <= bound
    ensures 0 <= Sum(s) <= |s| * bound
  {
    if s != [] {
      SumIsBounded(s[..|s| - 1], bound);
      assert (|s| - 1) * bound + bound == |s| * bound;
    }
  }

  /** `calls` is the number of times op ran and `sleeps` the delays asked for. */
  method Do<E>(p: Policy, w: World<E>) returns (r: Result<E>, calls: nat, sleeps: seq<int>)
    ensures calls <= if p.maxAttempts <= 0 then 3 else p.maxAttempts
    ensures forall k :: 1 <= k < calls ==> Retried(w, k)
    ensures forall k :: 1 <= k < calls ==>
              w.done(k).None? && w.op(k).Some? && w.retryable(w.op(k).value) && w.sleep(k).None?
    ensures forall k :: 0 <= k < |sleeps| ==> sleeps[k] == Delay(p, k + 1, w.draw(k + 1))
    ensures !r.Cancelled? ==> 1 <= calls && w.done(calls).None? && |sleeps| == calls - 1
    ensures r.Succeeded? ==> w.op(calls).None?
    ensures r.NotRetryable? ==>
              && calls < (if p.maxAttempts <= 0 then 3 else p.maxAttempts)
              && w.op(calls) == Some(r.error) && !w.retryable(r.error)
    ensures r.Exhausted? ==>
              && calls == (if p.maxAttempts <= 0 then 3 else p.maxAttempts) == r.attempts
              && w.op(calls) == Some(r.error)
    ensures r.Cancelled? ==> |sleeps| == calls < if p.maxAttempts <= 0 then 3 else p.maxAttempts
    ensures r.Cancelled? ==> if calls == 0 || w.sleep(calls).None? then w.done(calls + 1) == Some(r.cause)
                             else w.sleep(calls) == Some(r.cause)
    ensures |sleeps| < MaxAttempts(p) == if p.maxAttempts <= 0 then 3 else p.maxAttempts
  {
    var maxN := MaxAttempts(p);
    calls, sleeps := 0, [];
    var attempt := 1;
    while attempt <= maxN
      invariant 1 <= attempt <= maxN
      invariant calls == attempt - 1 == |sleeps|
      invariant forall k :: 1 <= k < attempt ==> Retried(w, k)
      invariant forall k :: 1 <= k < attempt ==>
                  w.done(k).None? && w.op(k).Some? && w.retryable(w.op(k).value) && w.sleep(k).None?
      invariant forall k :: 0 <= k < |sleeps| ==> sleeps[k] == Delay(p, k + 1, w.draw(k + 1))
    {
      if w.done(attempt).Some? {
        assert calls == 0 || Retried(w, calls);
        return Cancelled(w.done(attempt).value), calls, sleeps;
      }
      var err := w.op(attempt);
      calls := attempt;
      if err.None? { return Succeeded, calls, sleeps; }
      if attempt == maxN { return Exhausted(maxN, err.value), calls, sleeps; }
      if !w.retryable(err.value) { return NotRetryable(err.value), calls, sleeps; }
      var delay := ComputeDelay(p, attempt, w.draw(attempt));
      sleeps := sleeps + [delay];
      if w.sleep(attempt).Some? {
        return Cancelled(w.sleep(attempt).value), calls, sleeps;
      }
      attempt := attempt + 1;
    }
    assert false;
  }

  /** Without jitter and with a base within the cap, everything Do sleeps adds up
      to at most (maxAttempts - 1) times the cap. */
  lemma TotalSleepIsBounded<E>(p: Policy, w: World<E>, sleeps: seq<int>)
    requires forall k :: 0 <= k < |sleeps| ==> sleeps[k] == Delay(p, k + 1, w.draw(k + 1))
    requires |sleeps| < MaxAttempts(p) && BaseDelay(p) <= MaxDelay(p) && p.jitter <= 0.0
    ensures 0 <= Sum(sleeps) <= (MaxAttempts(p) - 1) * MaxDelay(p)
  {
    forall k | 0 <= k < |sleeps| ensures 0 <= sleeps[k] <= MaxDelay(p) {
      DelayWithinCap(p, k + 1, w.draw(k + 1));
    }
    SumIsBounded(sleeps, MaxDelay(p));
    Longer(|sleeps|, MaxAttempts(p) - 1, MaxDelay(p));
  }

  lemma Longer(a: nat, b: nat, d: nat)
    requires a <= b
    ensures a * d <= b * d
  {
    assert (b - a) * d >= 0;
  }
}
