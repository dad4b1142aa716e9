/** The capped, jittered reconnect backoff of src/retry.rs. */
module Retry {
  import opened Prelude

  const INITIAL_RECONNECT_DELAY: Nanos := 200 * MILLISECOND
  const MAX_RECONNECT_DELAY: Nanos := 5 * SECOND
  const PRE_RELAY_RECONNECT_WINDOW: Nanos := 60 * SECOND
  const U32_MAX: u32 := 0xFFFF_FFFF

  function Pow2(n: nat): (r: nat)
    ensures r >= 1
  {
    if n == 0 then 1 else 2 * Pow2(n - 1)
  }

  /** `u32::saturating_add(1)` on the attempt counter. */
  function NextAttempt(attempt: u32): u32 {
    if attempt == U32_MAX then U32_MAX else attempt + 1
  }

  /** `Duration::checked_mul`. */
  function CheckedMul(d: Nanos, factor: nat): Option<Nanos> {
    if d * factor <= MAX_DURATION then Some(d * factor) else None
  }

  /** The upper limit of the delay that follows `attempt` earlier ones. */
  function Cap(attempt: nat): Nanos {
    var product := CheckedMul(INITIAL_RECONNECT_DELAY, Pow2(Min(attempt, 5)));
    Min(if product.Some? then product.value else MAX_RECONNECT_DELAY, MAX_RECONNECT_DELAY)
  }

  function Delay(attempt: nat, jitter: Nanos -> Nanos): Nanos {
    Min(jitter(Cap(attempt)), Cap(attempt))
  }

  class ReconnectBackoff {
    var attempt: u32

    constructor ()
      ensures attempt == 0
    {
      attempt := 0;
    }

    method NextDelayWith(jitter: Nanos -> Nanos) returns (delay: Nanos)
      modifies this
      ensures delay == Delay(old(attempt), jitter)
      ensures attempt == NextAttempt(old(attempt))
    {
      var exponent := Min(attempt, 5);
      attempt := if attempt == U32_MAX then U32_MAX else attempt + 1;
      var product := CheckedMul(INITIAL_RECONNECT_DELAY, Pow2(exponent));
      var cap := Min(if product.Some? then product.value else MAX_RECONNECT_DELAY, MAX_RECONNECT_DELAY);
      delay := Min(jitter(cap), cap);
    }

    /** Full jitter: a draw from zero to the cap, both included. */
    method NextDelay(draw: Nanos -> Nanos) returns (delay: Nanos)
      requires forall cap :: draw(cap) <= cap
      modifies this
      ensures delay == draw(Cap(old(attempt)))
      ensures attempt == NextAttempt(old(attempt))
    {
      delay := NextDelayWith(draw);
    }
  }

  /** A draw within the cap is the delay itself, and a larger one is cut to the cap. */
  lemma DrawIsDelay(attempt: nat, jitter: Nanos -> Nanos)
    ensures jitter(Cap(attempt)) <= Cap(attempt) ==> Delay(attempt, jitter) == jitter(Cap(attempt))
    ensures jitter(Cap(attempt)) > Cap(attempt) ==> Delay(attempt, jitter) == Cap(attempt)
  {
  }

  /** The counter of a backoff that has produced `n` delays. */
  function AttemptAfter(n: nat): u32 {
    if n == 0 then 0 else NextAttempt(AttemptAfter(n - 1))
  }

  /** The total of the first `n` delays, where the `k`-th one is drawn by `jitters(k)`. */
  function TotalDelay(n: nat, jitters: nat -> Nanos -> Nanos): Nanos {
    if n == 0 then 0 else TotalDelay(n - 1, jitters) + Delay(AttemptAfter(n - 1), jitters(n - 1))
  }

  /** The closed form of the total of the first `n` caps. */
  function TotalCap(n: nat): Nanos {
    200 * MILLISECOND * (Pow2(Min(n, 5)) - 1) + 5 * SECOND * (if n <= 5 then 0 else n - 5)
  }

  lemma {:induction false} AttemptCounts(n: nat)
    ensures AttemptAfter(n) == Min(n, U32_MAX)
  {
    if n > 0 {
      AttemptCounts(n - 1);
    }
  }

  lemma PowersOfTwo()
    ensures Pow2(0) == 1 && Pow2(1) == 2 && Pow2(2) == 4 && Pow2(3) == 8 && Pow2(4) == 16 && Pow2(5) == 32
  {
    assert Pow2(3) == 8;
    assert Pow2(5) == 2 * Pow2(4) == 4 * Pow2(3);
  }

  /** The caps are 200, 400, 800, 1600, 3200 ms and then 5 s for ever. */
  lemma CapTable(attempt: nat)
    ensures Cap(attempt) == match attempt
                            case 0 => 200 * MILLISECOND
                            case 1 => 400 * MILLISECOND
                            case 2 => 800 * MILLISECOND
                            case 3 => 1600 * MILLISECOND
                            case 4 => 3200 * MILLISECOND
                            case _ => MAX_RECONNECT_DELAY
  {
    PowersOfTwo();
  }

  /** Caps never decrease and never exceed the maximum, also once the u32 counter saturates. */
  lemma CapsNeverDecrease(m: nat, n: nat)
    requires m <= n
    ensures Cap(AttemptAfter(m)) <= Cap(AttemptAfter(n)) <= MAX_RECONNECT_DELAY
    ensures Cap(AttemptAfter(n)) == Cap(n)
  {
    SaturationIsHarmless(m);
    SaturationIsHarmless(n);
    CapTable(m);
    CapTable(n);
  }

  lemma SaturationIsHarmless(n: nat)
    ensures Cap(AttemptAfter(n)) == Cap(n)
  {
    AttemptCounts(n);
    CapTable(n);
    CapTable(Min(n, U32_MAX));
  }

  lemma TotalCapStep(n: nat)
    ensures TotalCap(n + 1) == TotalCap(n) + Cap(n)
  {
    PowersOfTwo();
    CapTable(n);
  }

  /** Jitter number `k` picks no less than its cap. */
  predicate PicksCap(k: nat, jitters: nat -> Nanos -> Nanos) {
    jitters(k)(Cap(k)) >= Cap(k)
  }

  lemma DelayAtMostCap(k: nat, jitters: nat -> Nanos -> Nanos)
    ensures Delay(AttemptAfter(k), jitters(k)) <= Cap(k)
    ensures Delay(AttemptAfter(k), jitters(k)) == Cap(k) <==> PicksCap(k, jitters)
  {
    SaturationIsHarmless(k);
  }

  /**
   Whatever the jitter, the first `n` delays take no longer than the closed form, and they take
   exactly that long for the jitter that always picks the cap, and for no smaller one.
   */
  lemma {:induction false} TotalDelayBounded(n: nat, jitters: nat -> Nanos -> Nanos)
    ensures TotalDelay(n, jitters) <= TotalCap(n)
    ensures TotalDelay(n, jitters) == TotalCap(n) <==> forall k :: 0 <= k < n ==> PicksCap(k, jitters)
  {
    if n == 0 {
      PowersOfTwo();
    } else {
      TotalDelayBounded(n - 1, jitters);
      TotalCapStep(n - 1);
      DelayAtMostCap(n - 1, jitters);
    }
  }
}
