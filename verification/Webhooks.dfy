/** Retry timing of webhook deliveries: clamped exponential backoff on whole seconds. */
module Webhooks {
  import opened Rounding
  import opened Tables
  import Options

  datatype SendResult = SendResult(ok: bool, statusCode: Options.Option<int>, error: Options.Option<string>)

  const MICROSECONDS := 1_000_000

  function Pow2(n: nat): (p: nat)
    ensures p >= 1
  {
    if n == 0 then 1 else 2 * Pow2(n - 1)
  }

  /** 2 ** max(0, min(attempt_count, 16)) */
  function Factor(attempts: int): nat {
    Pow2(if attempts < 0 then 0 else if attempts < 16 then attempts else 16)
  }

  /** Seconds added by timedelta(seconds=base * factor) to a whole-second instant, cut back to whole seconds. */
  function DelaySeconds(base: real, attempts: int): int {
    RoundHalfEven(base * Factor(attempts) as real * MICROSECONDS as real) / MICROSECONDS
  }

  /** The documented power: 2^i, none before the first retry, no more than 2^16. */
  function Power(i: int): nat {
    Pow2(if i <= 0 then 0 else if i >= 16 then 16 else i)
  }

  /** The documented delay: base * 2^min(i, 16), in whole seconds. */
  function FloorDelay(base: real, attempts: int): int {
    (base * Power(attempts) as real).Floor
  }

  function NextAttempt(now: Instant, attempts: int, base: real): Instant {
    now + DelaySeconds(base, attempts)
  }

  lemma SixteenDoublings()
    ensures Pow2(16) == 65536
  {
    assert Pow2(4) == 16;
    assert Pow2(8) == 16 * Pow2(4);
    assert Pow2(12) == 16 * Pow2(8);
  }

  /** The factor is 1 up to the first retry, doubles sixteen times, and stays 65536 from then on. */
  lemma FactorDoubles(attempts: int)
    ensures attempts <= 0 ==> Factor(attempts) == 1
    ensures 0 <= attempts < 16 ==> Factor(attempts + 1) == 2 * Factor(attempts)
    ensures attempts >= 16 ==> Factor(attempts) == 65536
  {
    SixteenDoublings();
  }

  /** Cut to whole seconds, with Python's rounding to microseconds first. */
  lemma RoundedSeconds(seconds: real)
    ensures seconds.Floor <= RoundHalfEven(seconds * MICROSECONDS as real) / MICROSECONDS <= seconds.Floor + 1
    ensures seconds.Floor as real == seconds ==>
      RoundHalfEven(seconds * MICROSECONDS as real) / MICROSECONDS == seconds.Floor
  {
    var micros := seconds * MICROSECONDS as real;
    RoundNear(micros);
    assert seconds.Floor as real <= seconds < seconds.Floor as real + 1.0;
    assert seconds.Floor * MICROSECONDS <= RoundHalfEven(micros) <= (seconds.Floor + 1) * MICROSECONDS;
    if seconds.Floor as real == seconds {
      assert micros == (seconds.Floor * MICROSECONDS) as real;
    }
  }

  lemma FactorIsPower(attempts: int)
    ensures Factor(attempts) == Power(attempts)
  {
  }

  lemma DelayWith(base: real, attempts: int, factor: nat)
    requires factor == Factor(attempts)
    ensures
      var seconds := base * factor as real;
      && seconds.Floor <= DelaySeconds(base, attempts) <= seconds.Floor + 1
      && (seconds.Floor as real == seconds ==> DelaySeconds(base, attempts) == seconds.Floor)
  {
    RoundedSeconds(base * factor as real);
  }

  /** The delay is the floor of base * 2^min(i, 16); microsecond rounding adds at most one second. */
  lemma DelayIsFloor(base: real, attempts: int)
    ensures FloorDelay(base, attempts) <= DelaySeconds(base, attempts) <= FloorDelay(base, attempts) + 1
  {
    FactorIsPower(attempts);
    var factor, floor := Power(attempts), FloorDelay(base, attempts);
    assert floor == (base * factor as real).Floor;
    DelayWith(base, attempts, factor);
  }

  lemma ProductOfInts(a: int, b: int)
    ensures a as real * b as real == (a * b) as real
  {
  }

  /** A base of whole seconds is multiplied exactly: 5 seconds give 5, 10, 20, 40 and so on. */
  lemma WholeDelay(base: int, attempts: int)
    ensures DelaySeconds(base as real, attempts) == base * Power(attempts)
  {
    FactorIsPower(attempts);
    ProductOfInts(base, Power(attempts));
    DelayWith(base as real, attempts, Power(attempts));
  }

  lemma FloorOfTwice(base: real, n: nat)
    ensures
      var once, twice := (base * n as real).Floor, (base * (2 * n) as real).Floor;
      2 * once <= twice <= 2 * once + 1
  {
    var x := base * n as real;
    assert base * (2 * n) as real == 2.0 * x;
  }

  /** Below the clamp the delay doubles from one failure to the next, up to the cut to whole seconds. */
  lemma DelayDoubles(base: real, attempts: int)
    requires 0 <= attempts < 16
    ensures 2 * FloorDelay(base, attempts) <= FloorDelay(base, attempts + 1) <= 2 * FloorDelay(base, attempts) + 1
    ensures -2 <= DelaySeconds(base, attempts + 1) - 2 * DelaySeconds(base, attempts) <= 2
  {
    var n, once, twice := Power(attempts), FloorDelay(base, attempts), FloorDelay(base, attempts + 1);
    assert Power(attempts + 1) == 2 * n;
    assert once == (base * n as real).Floor && twice == (base * (2 * n) as real).Floor;
    FloorOfTwice(base, n);
    DelayIsFloor(base, attempts);
    DelayIsFloor(base, attempts + 1);
  }

  /** f(0) + ... + f(n - 1) */
  function Sum(f: int -> int, n: int): int {
    if n <= 0 then 0 else Sum(f, n - 1) + f(n - 1)
  }

  lemma {:induction false} SumMonotone(f: int -> int, g: int -> int, n: int)
    requires forall i :: f(i) <= g(i)
    ensures Sum(f, n) <= Sum(g, n)
  {
    if n > 0 {
      SumMonotone(f, g, n - 1);
    }
  }

  /** Backoff served before attempt number n + 1, as the stored instants accumulate it. */
  function BackoffSum(base: real, n: int): int {
    Sum(i => DelaySeconds(base, i), n)
  }

  /** The documented backoff: the sum of floor(base * 2^min(i, 16)) over i < n. */
  function FloorSum(base: real, n: int): int {
    Sum(i => FloorDelay(base, i), n)
  }

  lemma BackoffCoversFloors(base: real, n: int)
    ensures FloorSum(base, n) <= BackoffSum(base, n)
  {
    var f, g := i => FloorDelay(base, i), i => DelaySeconds(base, i);
    forall i ensures f(i) <= g(i) {
      DelayIsFloor(base, i);
    }
    SumMonotone(f, g, n);
  }

  lemma BackoffSumStep(base: real, n: nat)
    ensures BackoffSum(base, n + 1) == BackoffSum(base, n) + DelaySeconds(base, n)
  {
  }
}
