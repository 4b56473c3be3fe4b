/** The context's bounded arithmetic: timeouts on a 32-bit clock, and scaled chunk sizes. */
module Bounds {
  import opened Wrappers
  import opened Sequences

  const CLOCK: nat := 0x1_0000_0000

  /** `_is_timeout`: the difference of two 32-bit clock readings, compared with the timeout. */
  predicate IsTimeout(now: nat, start: nat, timeout: nat) {
    (now - start) % CLOCK > timeout
  }

  /** At the reading `t` the test says what true time says. */
  predicate Agrees(t: nat, start: nat, timeout: nat) {
    IsTimeout(t % 0x1_0000_0000, start % 0x1_0000_0000, timeout) <==> t - start > timeout
  }

  /** Across any number of turns the clock shows the time that passed, less its full turns. */
  lemma ClockDifference(t: nat, start: nat, timeout: nat)
    requires start <= t
    ensures IsTimeout(t % CLOCK, start % CLOCK, timeout) <==> (t - start) % CLOCK > timeout
  {
    var x := t % CLOCK - start % CLOCK;
    Turns(x, t / CLOCK - start / CLOCK);
    assert x % CLOCK == (t - start) % CLOCK;
  }

  /**
   The test agrees with true time at every reading from `start` to `now`, across every wrap of the clock, exactly
   as long as less than a full turn has passed: whatever the timeout, it is wrong when the turn is complete.
   */
  lemma TimeoutAgreesIff(start: nat, now: nat, timeout: nat)
    requires start <= now && timeout < 0x1_0000_0000
    ensures (forall t | start <= t <= now :: Agrees(t, start, timeout)) <==> now - start < 0x1_0000_0000
  {
    if now - start < CLOCK {
      forall t | start <= t <= now
        ensures Agrees(t, start, timeout)
      {
        ClockDifference(t, start, timeout);
      }
    } else {
      ClockDifference(start + CLOCK, start, timeout);
      assert !Agrees(start + CLOCK, start, timeout);
    }
  }

  /** Full turns do not show on the clock. */
  lemma {:induction false} Turns(x: int, k: int)
    ensures (x + CLOCK * k) % CLOCK == x % CLOCK
    decreases if k < 0 then -k else k
  {
    if k > 0 {
      Turns(x, k - 1);
      assert x + CLOCK * k == x + CLOCK * (k - 1) + CLOCK;
    } else if k < 0 {
      Turns(x, k + 1);
      assert x + CLOCK * k == x + CLOCK * (k + 1) - CLOCK;
    }
  }

  function Pow2(n: nat): (p: nat)
    ensures p >= 1
  {
    if n == 0 then 1 else 2 * Pow2(n - 1)
  }

  /** The powers of two: 1, 2, and the rest by the law of exponents. */
  lemma {:induction false} PowersOfTwo(a: nat, b: nat)
    ensures Pow2(0) == 1 && Pow2(1) == 2 && Pow2(a + b) == Pow2(a) * Pow2(b)
    decreases a
  {
    if a > 0 { PowersOfTwo(a - 1, b); }
  }

  /** `_calculate_chunk_size`: what fits, divided by the scale factor if it is larger than that. */
  function ChunkSize(space: nat, remaining: nat, scale: nat): nat {
    var fits := Min(space, remaining);
    if fits > Pow2(scale) then fits / Pow2(scale) else fits
  }

  /** Scaling cuts off the low bits of what fits, exactly when it is larger than the scale factor. */
  lemma ChunkBounds(space: nat, remaining: nat, scale: nat)
    ensures ChunkSize(space, remaining, scale) <= space && ChunkSize(space, remaining, scale) <= remaining
    ensures ChunkSize(space, remaining, scale) == 0 <==> space == 0 || remaining == 0
    ensures var n, fits := ChunkSize(space, remaining, scale), if space <= remaining then space else remaining;
            if fits <= Pow2(scale) then n == fits else n * Pow2(scale) <= fits < (n + 1) * Pow2(scale)
  {
    var fits, p := Min(space, remaining), Pow2(scale);
    if fits > p { Quotient(fits, p); }
  }

  lemma Quotient(n: nat, p: nat)
    requires 1 <= p <= n
    ensures 1 <= n / p <= n && n / p * p <= n < (n / p + 1) * p
  {
    var q := n / p;
    assert n == p * q + n % p;
    assert p * q >= q;
  }

  /**
   A loop that sends one such chunk per round, whatever space and scale it finds, always progresses,
   never exceeds the space, and ends with everything sent.
   */
  method SendScaled(total: nat, space: nat -> nat, scale: nat -> nat) returns (chunks: seq<nat>)
    requires forall i :: 0 < space(i) && scale(i) <= 30
    ensures Sum(chunks) == total && |chunks| <= total
    ensures forall i | 0 <= i < |chunks| :: 0 < chunks[i] <= space(i)
  {
    chunks := [];
    var remaining := total;
    while remaining > 0
      invariant Sum(chunks) + remaining == total && |chunks| + remaining <= total
      invariant forall i | 0 <= i < |chunks| :: 0 < chunks[i] <= space(i)
    {
      var round := |chunks|;
      var n := ChunkSize(space(round), remaining, scale(round));
      ChunkBounds(space(round), remaining, scale(round));
      SumConcat(chunks, [n]);
      assert [n][1..] == [];
      chunks, remaining := chunks + [n], remaining - n;
    }
  }
}
