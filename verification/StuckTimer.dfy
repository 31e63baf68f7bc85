/** The timer that tells for how long the head of a link's buffer has been offered to its node. */
module StuckTimers {
  import opened Basics

  type TimerState = Option<Tick>

  function Start(s: TimerState, now: Tick): (r: TimerState)
  {
    if s.None? then Some(now) else s
  }

  /** Ticks are unsigned: the subtraction only makes sense once the start tick is reached. */
  predicate Stuck(s: TimerState, threshold: Tick, now: Tick)
    requires s.Some? ==> s.value <= now
  {
    s.Some? && now - s.value >= threshold
  }

  class StuckTimer {
    var started: Option<Tick>
    const threshold: Tick

    constructor (threshold: Tick)
      ensures started == None && this.threshold == threshold
    {
      this.threshold := threshold;
      started := None;
    }

    method StartAt(now: Tick)
      modifies this
      ensures started == Start(old(started), now)
    {
      if started.None? {
        started := Some(now);
      }
    }

    method Reset()
      modifies this
      ensures started == None
    {
      started := None;
    }

    method IsStuck(now: Tick) returns (stuck: bool)
      requires started.Some? ==> started.value <= now
      ensures stuck == Stuck(started, threshold, now)
      ensures stuck <==> started.Some? && started.value + threshold <= now
    {
      if started.Some? {
        stuck := now - started.value >= threshold;
      } else {
        stuck := false;
      }
    }
  }
}
