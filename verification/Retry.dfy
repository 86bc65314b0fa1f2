/**
 * Retry with exponential backoff, internal/infrastructure/resilience/retry.go. Durations are 64-bit nanosecond counts.
 */
module Retries {
  import opened Common

  datatype RetryPolicy = RetryPolicy(maxAttempts: int, initialBackoff: int, backoffMultiplier: int)

  /** A Go `(value, error)` pair. */
  datatype Reply<+T, +E> = Reply(value: T, err: Option<E>)

  const TWO64: int := 0x1_0000_0000_0000_0000

  /** The value a signed 64-bit register keeps of `x`. */
  function Wrap64(x: int): (w: int)
    ensures Fits64(w)
    ensures Fits64(x) ==> w == x
    ensures (x - w) % 0x1_0000_0000_0000_0000 == 0
  {
    var y := x % TWO64;
    assert x == TWO64 * (x / TWO64) + y;
    if y >= TWO63 then
      assert x - (y - TWO64) == TWO64 * (x / TWO64 + 1);
      y - TWO64
    else y
  }

  function Pow(base: int, exponent: nat): int {
    if exponent == 0 then 1 else base * Pow(base, exponent - 1)
  }

  function NewRetryPolicy(maxAttempts: int, initialBackoff: int, backoffMultiplier: int): (p: RetryPolicy)
    ensures p.maxAttempts >= 1 && (maxAttempts >= 1 ==> p.maxAttempts == maxAttempts)
    ensures p.backoffMultiplier >= 1 && (backoffMultiplier >= 1 ==> p.backoffMultiplier == backoffMultiplier)
    ensures maxAttempts < 1 ==> p.maxAttempts == 1
    ensures backoffMultiplier < 1 ==> p.backoffMultiplier == 1
    ensures p.initialBackoff == initialBackoff
  {
    RetryPolicy(Max(maxAttempts, 1), initialBackoff, Max(backoffMultiplier, 1))
  }

  lemma ModShift(a: int, k: int)
    ensures (a + k * TWO64) % TWO64 == a % TWO64
  {
    var q, r := a / TWO64, a % TWO64;
    assert a + k * TWO64 == (q + k) * TWO64 + r;
  }

  /** Wrapping before a multiplication changes nothing that wrapping after it would keep. */
  lemma WrapProduct(x: int, m: int)
    ensures Wrap64(Wrap64(x) * m) == Wrap64(x * m)
  {
    var k := if x % TWO64 >= TWO63 then -(x / TWO64) - 1 else -(x / TWO64);
    assert Wrap64(x) == x + k * TWO64;
    calc {
      Wrap64(x) * m;
      (x + k * TWO64) * m;
      x * m + (k * m) * TWO64;
    }
    ModShift(x * m, k * m);
  }

  /** The pause after attempt `attempt`: the geometric progression, cut to 64 bits. */
  function Backoff(p: RetryPolicy, attempt: nat): int {
    Wrap64(p.initialBackoff * Pow(p.backoffMultiplier, attempt))
  }

  /**
   * For every policy, even with negative or overflowing factors, the loop of wrapping products is the wrapped power.
   */
  method BackoffForAttempt(p: RetryPolicy, attempt: int) returns (backoff: int)
    requires Fits64(p.initialBackoff)
    ensures backoff == Backoff(p, if attempt < 0 then 0 else attempt)
    ensures attempt <= 0 ==> backoff == p.initialBackoff
    ensures Fits64(backoff)
    ensures attempt >= 0 ==>
      (p.initialBackoff * Pow(p.backoffMultiplier, attempt) - backoff) % 0x1_0000_0000_0000_0000 == 0
  {
    backoff := p.initialBackoff;
    var i := 0;
    while i < attempt
      invariant 0 <= i && (i <= attempt || i == 0)
      invariant backoff == Backoff(p, i)
    {
      WrapProduct(p.initialBackoff * Pow(p.backoffMultiplier, i), p.backoffMultiplier);
      assert p.initialBackoff * Pow(p.backoffMultiplier, i) * p.backoffMultiplier
          == p.initialBackoff * Pow(p.backoffMultiplier, i + 1) by {
        Associate(p.initialBackoff, Pow(p.backoffMultiplier, i), p.backoffMultiplier);
      }
      backoff := Wrap64(backoff * p.backoffMultiplier);
      i := i + 1;
    }
  }

  lemma Associate(a: int, b: int, c: int)
    ensures a * b * c == a * (c * b)
  {
  }

  lemma {:induction false} PowPositive(m: int, k: nat)
    requires m >= 1
    ensures Pow(m, k) >= 1
    ensures k > 0 ==> Pow(m, k) >= Pow(m, k - 1)
  {
    if k > 0 {
      PowPositive(m, k - 1);
      MulAtLeast(m, Pow(m, k - 1));
    }
  }

  lemma MulAtLeast(m: int, x: int)
    requires m >= 1 && x >= 0
    ensures m * x >= x
  {
    assert m * x == (m - 1) * x + x;
    if x > 0 && m > 1 {
      assert (m - 1) * x >= 0;
    }
  }

  lemma {:induction false} PowMonotone(m: int, j: nat, k: nat)
    requires m >= 1 && j <= k
    ensures Pow(m, j) <= Pow(m, k)
  {
    if j < k {
      PowMonotone(m, j, k - 1);
      PowPositive(m, k);
    }
  }

  lemma ScaleMonotone(a: int, x: int, y: int)
    requires 0 <= a && x <= y
    ensures a * x <= a * y
  {
    assert a * y == a * x + a * (y - x);
    assert a * (y - x) >= 0;
  }

  /**
   * No pause overflows, up to and including attempt `last`, exactly when the largest one fits 64 bits; and then
   * every pause is the mathematical value.
   */
  lemma BackoffExact(p: RetryPolicy, last: nat)
    requires p.backoffMultiplier >= 1 && p.initialBackoff >= 0
    ensures (forall k: nat :: k <= last ==> Backoff(p, k) == p.initialBackoff * Pow(p.backoffMultiplier, k))
        <==> Fits64(p.initialBackoff * Pow(p.backoffMultiplier, last))
  {
    if Fits64(p.initialBackoff * Pow(p.backoffMultiplier, last)) {
      forall k: nat | k <= last ensures Backoff(p, k) == p.initialBackoff * Pow(p.backoffMultiplier, k) {
        PowMonotone(p.backoffMultiplier, k, last);
        PowPositive(p.backoffMultiplier, k);
        ScaleMonotone(p.initialBackoff, Pow(p.backoffMultiplier, k), Pow(p.backoffMultiplier, last));
        ScaleMonotone(p.initialBackoff, 0, Pow(p.backoffMultiplier, k));
      }
    } else {
      assert Backoff(p, last) != p.initialBackoff * Pow(p.backoffMultiplier, last);
    }
  }

  function Sum(s: seq<int>): int { if s == [] then 0 else Sum(s[..|s| - 1]) + s[|s| - 1] }

  /** The pauses between `calls` runs of the operation; a negative duration fires the timer at once. */
  function Pauses(p: RetryPolicy, calls: nat): (s: seq<int>)
    ensures |s| == if calls == 0 then 0 else calls - 1
  {
    seq(if calls == 0 then 0 else calls - 1, i requires 0 <= i => Max(Backoff(p, i), 0))
  }

  lemma PauseSumStep(p: RetryPolicy, calls: nat)
    requires p.backoffMultiplier >= 1 && p.initialBackoff >= 0 && calls >= 2
    requires Fits64(p.initialBackoff * Pow(p.backoffMultiplier, calls - 2))
    ensures Sum(Pauses(p, calls)) == Sum(Pauses(p, calls - 1)) + p.initialBackoff * Pow(p.backoffMultiplier, calls - 2)
  {
    var k := calls - 2;
    BackoffExact(p, k);
    assert Backoff(p, k) == p.initialBackoff * Pow(p.backoffMultiplier, k);
    PowPositive(p.backoffMultiplier, k);
    ScaleMonotone(p.initialBackoff, 0, Pow(p.backoffMultiplier, k));
    var s, t := Pauses(p, calls), Pauses(p, calls - 1);
    assert s[..|s| - 1] == t && s[|s| - 1] == Max(Backoff(p, k), 0);
  }

  /** Without overflow the total pause is the geometric sum. */
  lemma {:induction false} PausesAreGeometric(p: RetryPolicy, calls: nat)
    requires p.backoffMultiplier >= 1 && p.initialBackoff >= 0 && calls >= 1
    requires calls >= 2 ==> Fits64(p.initialBackoff * Pow(p.backoffMultiplier, calls - 2))
    ensures Sum(Pauses(p, calls)) * (p.backoffMultiplier - 1)
      == p.initialBackoff * (Pow(p.backoffMultiplier, calls - 1) - 1)
    ensures p.backoffMultiplier == 1 ==> Sum(Pauses(p, calls)) == p.initialBackoff * (calls - 1)
  {
    if calls >= 2 {
      PauseSumStep(p, calls);
      if calls >= 3 {
        SmallerPauseFits(p, calls - 2);
      }
      PausesAreGeometric(p, calls - 1);
      GeometricStep(p.initialBackoff, p.backoffMultiplier, Pow(p.backoffMultiplier, calls - 2),
        Sum(Pauses(p, calls - 1)));
      if p.backoffMultiplier == 1 {
        PowOfOne(calls - 2);
      }
    } else {
      assert Pauses(p, 1) == [];
    }
  }

  lemma SmallerPauseFits(p: RetryPolicy, k: nat)
    requires p.backoffMultiplier >= 1 && p.initialBackoff >= 0 && k >= 1
    requires Fits64(p.initialBackoff * Pow(p.backoffMultiplier, k))
    ensures Fits64(p.initialBackoff * Pow(p.backoffMultiplier, k - 1))
  {
    PowMonotone(p.backoffMultiplier, k - 1, k);
    PowPositive(p.backoffMultiplier, k - 1);
    ScaleMonotone(p.initialBackoff, Pow(p.backoffMultiplier, k - 1), Pow(p.backoffMultiplier, k));
    ScaleMonotone(p.initialBackoff, 0, Pow(p.backoffMultiplier, k - 1));
  }

  lemma {:induction false} PowOfOne(k: nat)
    ensures Pow(1, k) == 1
  {
    if k > 0 { PowOfOne(k - 1); }
  }

  lemma GeometricStep(a: int, m: int, x: int, s: int)
    requires s * (m - 1) == a * (x - 1)
    ensures (s + a * x) * (m - 1) == a * (m * x - 1)
  {
    calc {
      (s + a * x) * (m - 1);
      s * (m - 1) + a * x * (m - 1);
      a * (x - 1) + a * x * (m - 1);
      { assert a * x * (m - 1) == a * (x * (m - 1)); }
      a * (x - 1) + a * (x * (m - 1));
      a * (x - 1 + x * (m - 1));
      a * (m * x - 1);
    }
  }

  /** The reply after run `i` (counted from 0) is handed to the caller. */
  predicate Decisive<T, E>(p: RetryPolicy, isRetryable: E -> bool, op: nat -> Reply<T, E>, i: nat) {
    op(i).err.None? || i + 1 >= p.maxAttempts || !isRetryable(op(i).err.value)
  }

  predicate Stops<T, E>(p: RetryPolicy, isRetryable: E -> bool, op: nat -> Reply<T, E>, cancelled: nat -> bool,
      i: nat)
  {
    Decisive(p, isRetryable, op, i) || cancelled(i)
  }

  /** `k` is the first run after which the loop stops. */
  ghost predicate FirstStop<T, E>(p: RetryPolicy, isRetryable: E -> bool, op: nat -> Reply<T, E>,
      cancelled: nat -> bool, k: nat)
  {
    Stops(p, isRetryable, op, cancelled, k)
    && forall i: nat :: i < k ==> !Stops(p, isRetryable, op, cancelled, i)
  }

  /**
   * The loop. `op(i)` is the reply of run `i`; `cancelled(i)` says that the context is done during the pause after
   * run `i`. It always ends, runs the operation up to the first stopping run and no further, and returns that run's
   * reply (value and error), or the zero value with the context's error.
   */
  method RetryWithBackoff<T, E>(p: RetryPolicy, isRetryable: E -> bool, op: nat -> Reply<T, E>, cancelled: nat -> bool,
      zero: T, ctxErr: E)
    returns (r: Reply<T, E>, calls: nat, slept: seq<int>)
    requires Fits64(p.initialBackoff)
    ensures calls >= 1 && FirstStop(p, isRetryable, op, cancelled, calls - 1)
    ensures r == if Decisive(p, isRetryable, op, calls - 1) then op(calls - 1) else Reply(zero, Some(ctxErr))
    ensures slept == Pauses(p, calls)
    ensures |slept| == calls - 1
    ensures forall i :: 0 <= i < |slept| ==> slept[i] == if Backoff(p, i) < 0 then 0 else Backoff(p, i)
  {
    var attempt: nat := 0;
    slept := [];
    while true
      invariant forall i: nat :: i < attempt ==> !Stops(p, isRetryable, op, cancelled, i)
      invariant attempt == 0 || attempt < p.maxAttempts
      invariant slept == Pauses(p, attempt + 1)
      decreases p.maxAttempts - attempt
    {
      var reply := op(attempt);
      if reply.err == None {
        return reply, attempt + 1, slept;
      }
      if attempt + 1 >= p.maxAttempts || !isRetryable(reply.err.value) {
        return reply, attempt + 1, slept;
      }
      if cancelled(attempt) {
        return Reply(zero, Some(ctxErr)), attempt + 1, slept;
      }
      var pause := BackoffForAttempt(p, attempt);
      slept := slept + [Max(pause, 0)];
      attempt := attempt + 1;
    }
  }

  /**
   * An uncancelled loop runs the operation min(max(1, maxAttempts), first success or non-retryable error) times:
   * `n` counts the leading retryable failures.
   */
  lemma UncancelledCallCount<T, E>(p: RetryPolicy, isRetryable: E -> bool, op: nat -> Reply<T, E>,
      cancelled: nat -> bool, k: nat, n: nat)
    requires FirstStop(p, isRetryable, op, cancelled, k)
    requires forall i: nat :: !cancelled(i)
    requires forall i: nat :: i < n ==> op(i).err.Some? && isRetryable(op(i).err.value)
    requires op(n).err.None? || !isRetryable(op(n).err.value)
    ensures k + 1 == Min(Max(1, p.maxAttempts), n + 1)
  {
    assert Stops(p, isRetryable, op, cancelled, n);
    var m := Max(1, p.maxAttempts) - 1;
    assert Stops(p, isRetryable, op, cancelled, m);
  }

  /** The same loop when every reply is a retryable failure: the attempt budget is used up. */
  lemma ExhaustedCallCount<T, E>(p: RetryPolicy, isRetryable: E -> bool, op: nat -> Reply<T, E>,
      cancelled: nat -> bool, k: nat)
    requires FirstStop(p, isRetryable, op, cancelled, k)
    requires forall i: nat :: !cancelled(i)
    requires forall i: nat :: op(i).err.Some? && isRetryable(op(i).err.value)
    ensures k + 1 == Max(1, p.maxAttempts)
  {
    assert Stops(p, isRetryable, op, cancelled, Max(1, p.maxAttempts) - 1);
  }

  /**
   * How many times the operation is run, cancelled or not: `n` counts the leading retryable failures, `m` the leading
   * pauses that are not cancelled. The budget, the first decisive reply and the first cancelled pause each end the
   * loop, whichever is first; and the caller gets the context's error exactly if it is the cancelled pause alone.
   */
  lemma CallCount<T, E>(p: RetryPolicy, isRetryable: E -> bool, op: nat -> Reply<T, E>, cancelled: nat -> bool, k: nat,
      n: nat, m: nat)
    requires FirstStop(p, isRetryable, op, cancelled, k)
    requires forall i: nat :: i < n ==> op(i).err.Some? && isRetryable(op(i).err.value)
    requires op(n).err.None? || !isRetryable(op(n).err.value)
    requires (forall i: nat :: i < m ==> !cancelled(i)) && cancelled(m)
    ensures k + 1 == Min(Min(Max(1, p.maxAttempts), n + 1), m + 1)
    ensures !Decisive(p, isRetryable, op, k) <==> k == m < n && m + 1 < p.maxAttempts
  {
    assert Stops(p, isRetryable, op, cancelled, n);
    assert Stops(p, isRetryable, op, cancelled, m);
    var b := Max(1, p.maxAttempts) - 1;
    assert Stops(p, isRetryable, op, cancelled, b);
  }
}
