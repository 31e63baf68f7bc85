/**
 * Simulation time and ticks. Times are whole nanoseconds and ticks are whole numbers, both within
 * 64 bits; a conversion whose result does not fit is where the simulation panics, here None.
 */
module Clock {
  import opened Basics
  import opened LinkSpec

  /** The number of ticks, rounded up, that reach a time. */
  function CeilTicks(tps: nat, nanos: nat): (k: nat)
  {
    (nanos * tps + NANOS - 1) / NANOS
  }

  function TimeToTick(tps: nat, nanos: nat): (r: Option<Tick>)
  {
    if CeilTicks(tps, nanos) <= U64_MAX then Some(CeilTicks(tps, nanos)) else None
  }

  function TickToTime(tps: nat, k: Tick): (r: Option<nat>)
    requires tps > 0
  {
    if TickNanos(tps, k) <= U64_MAX then Some(TickNanos(tps, k)) else None
  }

  /** Division rounds down: q is at most a / b exactly if b times q is at most a. */
  lemma {:induction false} FloorIs(a: nat, b: nat, q: nat)
    requires b > 0
    ensures q <= a / b <==> q * b <= a
  {
    var d := a / b;
    assert d * b <= a < (d + 1) * b;
    if q <= d {
      assert q * b <= d * b;
    } else {
      assert (d + 1) * b <= q * b;
    }
  }

  /** Rounding up: a / b rounded up is at most q exactly if a is at most b times q. */
  lemma {:induction false} CeilIs(a: nat, b: nat, q: nat)
    requires b > 0
    ensures (a + b - 1) / b <= q <==> a <= q * b
  {
    FloorIs(a + b - 1, b, q + 1);
    assert (q + 1) * b == q * b + b;
  }

  /**
   * The two conversions are adjoint: a time is reached by tick k exactly if it is not after the
   * time of tick k. So the tick of a time is the first whose clock time reaches it.
   */
  lemma {:induction false} Adjunction(tps: nat, nanos: nat, k: Tick)
    requires tps > 0
    ensures CeilTicks(tps, nanos) <= k <==> nanos <= TickNanos(tps, k)
  {
    CeilIs(nanos * tps, NANOS, k);
    FloorIs(k * NANOS, tps, nanos);
  }

  lemma {:induction false} FirstTickThatReaches(tps: nat, nanos: nat)
    requires tps > 0 && TimeToTick(tps, nanos).Some?
    ensures var k := TimeToTick(tps, nanos).value;
            && nanos <= TickNanos(tps, k)
            && forall j: nat :: j < k ==> TickNanos(tps, j) < nanos
  {
    var k := TimeToTick(tps, nanos).value;
    Adjunction(tps, nanos, k);
    forall j: nat | j < k
      ensures TickNanos(tps, j) < nanos
    {
      Adjunction(tps, nanos, j);
    }
  }

  /** With at most one tick per nanosecond, the time of a tick leads back to that tick. */
  lemma {:induction false} TickRoundTrip(tps: nat, k: Tick)
    requires 0 < tps <= NANOS
    ensures CeilTicks(tps, TickNanos(tps, k)) == k
  {
    var t := TickNanos(tps, k);
    Adjunction(tps, t, k);
    if k > 0 {
      Adjunction(tps, t, k - 1);
      // the time of tick k is later than that of tick k - 1, because a tick takes a nanosecond or more
      FloorIs(k * NANOS, tps, TickNanos(tps, k - 1) + 1);
      var s := TickNanos(tps, k - 1);
      assert s * tps <= (k - 1) * NANOS by {
        FloorIs((k - 1) * NANOS, tps, s);
      }
      assert (s + 1) * tps == s * tps + tps;
      assert (k - 1) * NANOS + NANOS == k * NANOS;
    }
  }

  /** With more ticks than that in a second, tick 1 is lost: its time is rounded down to 0, which is tick 0. */
  lemma {:induction false} TickOneIsLost(tps: nat)
    requires tps > NANOS
    ensures TickNanos(tps, 1) == 0 && CeilTicks(tps, TickNanos(tps, 1)) == 0
  {
    FloorIs(NANOS, tps, 1);
  }

  /** The round trip is exact for every tick if and only if there are at most 10^9 ticks per second. */
  lemma {:induction false} RoundTripIff(tps: nat)
    requires tps > 0
    ensures (forall k: Tick :: CeilTicks(tps, TickNanos(tps, k)) == k) <==> tps <= NANOS
  {
    if tps <= NANOS {
      forall k: Tick
        ensures CeilTicks(tps, TickNanos(tps, k)) == k
      {
        TickRoundTrip(tps, k);
      }
    } else {
      TickOneIsLost(tps);
    }
  }

  /** Up to that rate no time has too large a tick, and every tick that a time leads to has a time. */
  lemma {:induction false} NoOverflow(tps: nat, nanos: nat)
    requires 0 < tps <= NANOS && nanos <= U64_MAX
    ensures TimeToTick(tps, nanos).Some?
  {
    ProductsGrow(nanos, U64_MAX, tps, NANOS);
    CeilIs(nanos * tps, NANOS, U64_MAX);
  }

  lemma {:induction false} ProductsGrow(a: nat, b: nat, c: nat, d: nat)
    requires a <= b && c <= d
    ensures a * c <= b * d
  {
    assert a * c <= b * c;
    assert b * c <= b * d;
  }

  /** Whole seconds are a whole number of ticks. */
  lemma {:induction false} SecondsAreExact(tps: nat, seconds: nat)
    ensures CeilTicks(tps, seconds * NANOS) == seconds * tps
  {
    var q := seconds * tps;
    assert seconds * NANOS * tps == q * NANOS;
    CeilIs(q * NANOS, NANOS, q);
    if q > 0 {
      CeilIs(q * NANOS, NANOS, q - 1);
      assert (q - 1) * NANOS == q * NANOS - NANOS;
    }
  }

  /** Later ticks have later or equal times, later times later or equal ticks. */
  lemma {:induction false} Monotone(tps: nat, a: nat, b: nat)
    requires tps > 0 && a <= b
    ensures TickNanos(tps, a) <= TickNanos(tps, b) && CeilTicks(tps, a) <= CeilTicks(tps, b)
  {
    FloorIs(b * NANOS, tps, TickNanos(tps, a));
    FloorIs(a * NANOS, tps, TickNanos(tps, a));
    assert a * NANOS <= b * NANOS;
    Adjunction(tps, a, CeilTicks(tps, b));
    Adjunction(tps, b, CeilTicks(tps, b));
  }
}
