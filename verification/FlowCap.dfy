/**
 * The flow capacity of a link: a token bucket that is refilled lazily, only when the link is
 * looked at. Times are nanoseconds; capacities are real numbers.
 */
module FlowCap {
  import opened Basics

  datatype FlowState = FlowState(last: nat, remaining: real, perSecond: real, perTick: real)

  function Seconds(nanos: nat): (r: real)
  {
    nanos as real / 1_000_000_000.0
  }

  function Refill(f: FlowState, now: nat): (r: FlowState)
  {
    if f.last < now then
      var acc := Seconds(now - f.last) * f.perSecond + f.remaining;
      f.(remaining := if acc < f.perTick then acc else f.perTick, last := now)
    else
      f
  }

  function Consume(f: FlowState, amount: real): (r: FlowState)
  {
    f.(remaining := f.remaining - amount)
  }

  predicate HasCapacityLeft(f: FlowState)
  {
    f.remaining > 0.0000000001
  }

  predicate Bounded(f: FlowState)
  {
    f.perSecond >= 0.0 && f.remaining <= f.perTick
  }

  lemma {:induction false} SecondsAdd(a: nat, b: nat, rate: real)
    ensures Seconds(a + b) * rate == Seconds(a) * rate + Seconds(b) * rate
    ensures rate >= 0.0 ==> Seconds(a) * rate >= 0.0
  {
    var x := a as real / 1_000_000_000.0;
    var y := b as real / 1_000_000_000.0;
    assert (a + b) as real / 1_000_000_000.0 == x + y;
    assert (x + y) * rate == x * rate + y * rate;
    assert x >= 0.0;
  }

  /** A refill never takes capacity away, never overfills, and adds at most rate times elapsed. */
  lemma {:induction false} RefillBounds(f: FlowState, now: nat)
    requires Bounded(f)
    ensures Bounded(Refill(f, now))
    ensures f.remaining <= Refill(f, now).remaining
    ensures f.last <= now ==> Refill(f, now).last == now
    ensures f.last <= now ==> Refill(f, now).remaining <= f.remaining + Seconds(now - f.last) * f.perSecond
  {
    if f.last < now {
      SecondsAdd(now - f.last, 0, f.perSecond);
    }
  }

  /**
   * Skipping a look at the link is unobservable: refilling at t1 and then at t2, with nothing
   * consumed in between, is the same as refilling once at t2.
   */
  lemma {:induction false} RefillComposes(f: FlowState, t1: nat, t2: nat)
    requires f.perSecond >= 0.0 && t1 <= t2
    ensures Refill(Refill(f, t1), t2) == Refill(f, t2)
  {
    if f.last < t1 < t2 {
      SecondsAdd(t1 - f.last, t2 - t1, f.perSecond);
      SecondsAdd(t2 - t1, 0, f.perSecond);
      assert (t1 - f.last) + (t2 - t1) == t2 - f.last;
    }
  }

  /** A refill in nanoseconds: what the elapsed time brings at the rate, up to the full bucket. */
  lemma {:induction false} RefillInNanos(f: FlowState, now: nat)
    ensures f.last < now ==>
              var sum := f.remaining + (now - f.last) as real * f.perSecond / 1_000_000_000.0;
              Refill(f, now) == f.(last := now, remaining := if sum < f.perTick then sum else f.perTick)
    ensures f.last >= now ==> Refill(f, now) == f
  {
    if f.last < now {
      Divided((now - f.last) as real, f.perSecond);
    }
  }

  lemma {:induction false} Divided(d: real, rate: real)
    ensures d / 1_000_000_000.0 * rate == d * rate / 1_000_000_000.0
  {
  }

  class Flowcap {
    var last: nat
    var remaining: real
    const perSecond: real
    const perTick: real

    constructor (capacityHour: real, sampleSize: real, capacityPerTick: real)
      ensures State() == FlowState(0, capacityPerTick, capacityHour * sampleSize / 3600.0, capacityPerTick)
    {
      last := 0;
      remaining := capacityPerTick;
      perSecond := capacityHour * sampleSize / 3600.0;
      perTick := capacityPerTick;
    }

    function State(): (f: FlowState)
      reads this
    {
      FlowState(last, remaining, perSecond, perTick)
    }

    method UpdateCapacity(now: nat)
      modifies this
      ensures State() == Refill(old(State()), now)
      ensures old(last) < now ==>
                var sum := old(remaining) + (now - old(last)) as real * perSecond / 1_000_000_000.0;
                last == now && remaining == if sum < perTick then sum else perTick
      ensures old(last) >= now ==> last == old(last) && remaining == old(remaining)
    {
      hide Seconds;
      ghost var was := State();
      if last < now {
        var elapsed := Seconds(now - last);
        var acc := elapsed * perSecond + remaining;
        remaining := if acc < perTick then acc else perTick;
        last := now;
      }
      assert State() == Refill(was, now);
      RefillInNanos(was, now);
    }

    method ConsumeCapacity(amount: real)
      modifies this
      ensures State() == Consume(old(State()), amount)
    {
      remaining := remaining - amount;
    }
  }
}
