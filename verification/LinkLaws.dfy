/**
 * What the numbers of a link mean: its capacities in terms of vehicles per hour and cells, its
 * bucket in terms of elapsed time, and its travel time in terms of length and speed.
 */
module LinkLaws {
  import opened Basics
  import opened FlowCap
  import opened Storage
  import opened LinkSpec
  import opened LinkRuns
  import opened RoadNetwork
  import opened Links
  import Clock
  import LinkHistory

  // ------------------------------------------------------------------ capacities

  /** The length of a tick is the whole number of nanoseconds nearest to a second divided by the ticks; of two, the even one. */
  lemma {:induction false} TickLengthIsNearest(tps: nat)
    requires tps > 0
    ensures var n := TickLength(tps);
            && -(tps as int) <= 2 * (n * tps - NANOS) <= tps
            && (2 * (n * tps - NANOS) == tps || 2 * (n * tps - NANOS) == -(tps as int) ==> n % 2 == 0)
  {
    var q, rest := NANOS / tps, NANOS % tps;
    assert NANOS == q * tps + rest;
    assert (q + 1) * tps == q * tps + tps;
  }

  /**
   * The link that is made: in an hour its bucket refills by the scaled hourly capacity, it holds
   * what flows in a tick, its storage is the larger of its scaled cells and of what flows in a second,
   * and its vehicles count as stuck after the configured number of seconds.
   */
  lemma {:induction false} FreshLinkIs(l: NetLink, c: Config)
    requires ValidConfig(c)
    ensures var s := FreshLink(l, c);
            && Seconds(3600 * NANOS) * s.flow.perSecond == l.capacity * c.sampleSize
            && s.flow.remaining == s.flow.perTick == s.flow.perSecond * Seconds(TickLength(c.tps)) && s.flow.last == 0
            && s.storage.max >= s.flow.perSecond && s.storage.max * c.cellSize >= l.length * l.lanes * c.sampleSize
            && (s.storage.max == s.flow.perSecond || s.storage.max * c.cellSize == l.length * l.lanes * c.sampleSize)
            && s.storage.used == 0.0 && s.timer == None && Active(s) == false
            && s.attr.length == l.length && s.attr.freeSpeed == l.freeSpeed && s.attr.tps == c.tps
            && TickNanos(c.tps, s.attr.threshold) == c.thresholdSeconds * NANOS
  {
    CellsAreExact(l.length * l.lanes * c.sampleSize, c.cellSize, l.capacity * c.sampleSize / 3600.0);
    SecondsOfTicks(c.tps, c.thresholdSeconds);
  }

  lemma {:induction false} CellsAreExact(area: real, cell: real, floor: real)
    requires cell > 0.0
    ensures area / cell * cell == area
    ensures area / cell < floor ==> floor * cell >= area
  {
    if area / cell < floor {
      assert (floor - area / cell) * cell >= 0.0;
    }
  }

  lemma {:induction false} SecondsOfTicks(tps: nat, seconds: nat)
    requires tps > 0
    ensures TickNanos(tps, seconds * tps) == seconds * NANOS
  {
    var t := seconds * NANOS;
    assert seconds * tps * NANOS == t * tps;
    Clock.FloorIs(t * tps, tps, t);
    Clock.FloorIs(t * tps, tps, t + 1);
    assert (t + 1) * tps == t * tps + tps;
  }

  // ------------------------------------------------------------------ the bucket

  /** After a refill the bucket is full, or it has gained exactly the rate times the elapsed time. */
  lemma {:induction false} RefillIsExact(f: FlowState, now: nat)
    requires Bounded(f) && f.last <= now
    ensures var r, gain := Refill(f, now).remaining, (now - f.last) as real * f.perSecond / 1_000_000_000.0;
            && Refill(f, now).last == now
            && (if f.remaining + gain >= f.perTick then r == f.perTick else r == f.remaining + gain)
  {
    var d := (now - f.last) as real;
    assert d / 1_000_000_000.0 * f.perSecond == d * f.perSecond / 1_000_000_000.0;
  }

  /** What a refill would add beyond a full bucket. */
  function Surplus(f: FlowState, now: nat): (r: real)
  {
    if f.last >= now then 0.0
    else
      var sum := f.remaining + (now - f.last) as real * f.perSecond / 1_000_000_000.0;
      if sum > f.perTick then sum - f.perTick else 0.0
  }

  /** What is lost in a run because the bucket is full. */
  function Lost(s: LinkState, acts: seq<LinkAction>): (r: real)
    requires s.attr.tps > 0
  {
    if acts == [] then 0.0
    else
      var front, a := acts[..|acts| - 1], acts[|acts| - 1];
      Lost(s, front) + (if a.Step? then Surplus(Run(s, front).flow, TickNanos(s.attr.tps, a.now)) else 0.0)
  }

  /** The exact account between two states of a bucket. */
  ghost predicate Balanced(f: FlowState, g: FlowState, out: real, lost: real)
  {
    && f.last <= g.last && f.perSecond == g.perSecond && f.perTick == g.perTick
    && out + lost == f.remaining - g.remaining + Seconds(g.last - f.last) * f.perSecond
  }

  lemma {:induction false} RefillBalanced(f: FlowState, now: nat)
    requires Bounded(f)
    ensures Balanced(f, Refill(f, now), 0.0, Surplus(f, now))
  {
    if f.last < now {
      RefillIsExact(f, now);
    }
    var d := (now - f.last) as real;
    assert d / 1_000_000_000.0 * f.perSecond == d * f.perSecond / 1_000_000_000.0;
    SecondsAdd(0, 0, f.perSecond);
  }

  lemma {:induction false} ActionBalanced(s: LinkState, a: LinkAction, p: real)
    requires LinkRuns.Inv(s, p)
    ensures Balanced(s.flow, Apply(s, a).flow, Outflow(s, a), if a.Step? then Surplus(s.flow, TickNanos(s.attr.tps, a.now)) else 0.0)
  {
    hide SimStep, TravelTicks, Pce, OnLink, Seconds, Surplus, Refill;
    SecondsAdd(0, 0, s.flow.perSecond);
    if a.Step? {
      SimStepShape(s, a.now);
      RefillBalanced(s.flow, TickNanos(s.attr.tps, a.now));
    }
  }

  lemma {:induction false} BalancedAdds(f: FlowState, g: FlowState, h: FlowState, x: real, y: real, u: real, v: real)
    requires Balanced(f, g, x, u) && Balanced(g, h, y, v)
    ensures Balanced(f, h, x + y, u + v)
  {
    SecondsAdd(g.last - f.last, h.last - g.last, f.perSecond);
    assert g.last - f.last + (h.last - g.last) == h.last - f.last;
  }

  /** What leaves a link and what is lost to a full bucket is exactly what was in the bucket and what the elapsed time brings. */
  lemma {:induction false} OutflowIsExact(s: LinkState, acts: seq<LinkAction>, p: real)
    requires LinkRuns.Inv(s, p) && Admissible(acts, p)
    ensures Balanced(s.flow, Run(s, acts).flow, Released(s, acts), Lost(s, acts))
    ensures Run(s, acts).attr == s.attr
  {
    hide Balanced, Surplus, TickNanos, LinkRuns.Inv, Outflow, Apply;
    if acts == [] {
      NothingBalanced(s.flow);
    } else {
      var front, a := acts[..|acts| - 1], acts[|acts| - 1];
      assert forall x :: x in front ==> x in acts;
      OutflowIsExact(s, front, p);
      LinkRuns.RunKeepsInv(s, front, p);
      var mid := Run(s, front);
      ActionBalanced(mid, a, p);
      SameAttr(mid, a);
      var lost := if a.Step? then Surplus(mid.flow, TickNanos(s.attr.tps, a.now)) else 0.0;
      BalancedAdds(s.flow, mid.flow, Apply(mid, a).flow, Released(s, front), Outflow(mid, a), Lost(s, front), lost);
    }
  }

  lemma {:induction false} NothingBalanced(f: FlowState)
    ensures Balanced(f, f, 0.0, 0.0)
  {
    SecondsAdd(0, 0, f.perSecond);
    assert Seconds(0) == 0.0;
  }

  lemma {:induction false} SameAttr(s: LinkState, a: LinkAction)
    requires s.attr.tps > 0
    ensures Apply(s, a).attr == s.attr
  {
    hide SimStep;
    if a.Step? {
      SimStepShape(s, a.now);
    }
  }

  // ------------------------------------------------------------------ no vehicle is held back

  /** A vehicle of the waiting list or a due one of the queue is left behind. */
  predicate LeftBehind(s: LinkState, now: Tick)
  {
    s.waiting != [] || (s.q != [] && s.q[0].exit <= now)
  }

  lemma {:induction false} WaitingHeldBack(s: LinkState)
    ensures var r := FillFromWaiting(s).s;
            r.waiting != [] ==> !r.waiting[0].WantsToArrive() && r.flow.remaining <= Pce(r.buffer)
    decreases |s.waiting|
  {
    if s.waiting != [] {
      var rest := s.waiting[1..];
      if s.waiting[0].WantsToArrive() {
        WaitingHeldBack(s.(waiting := rest));
      } else if FlowLeft(s) {
        WaitingHeldBack(s.(waiting := rest, buffer := s.buffer + [s.waiting[0]]));
      }
    }
  }

  lemma {:induction false} QueueHeldBack(s: LinkState, now: Tick)
    ensures var r := FillFromQueue(s, now).s;
            && (r.q != [] && r.q[0].exit <= now ==> !r.q[0].veh.WantsToArrive() && r.flow.remaining <= Pce(r.buffer))
            && r.flow == s.flow && r.waiting == s.waiting && s.buffer <= r.buffer
    decreases |s.q|
  {
    if s.q != [] && s.q[0].exit <= now {
      if s.q[0].veh.WantsToArrive() {
        QueueHeldBack(PopQueue(s), now);
      } else if FlowLeft(s) {
        QueueHeldBack(PopQueue(s).(buffer := s.buffer + [s.q[0].veh]), now);
      }
    }
  }

  lemma {:induction false} PceGrows(a: seq<Vehicle>, b: seq<Vehicle>, p: real)
    requires a <= b && PceWithin(b, p)
    ensures Pce(a) <= Pce(b)
  {
    var more := b[|a|..];
    assert b == a + more && forall v :: v in more ==> v in b;
    PceConcat(a, more);
    PcePositive(more, p);
  }

  /**
   * After a step a vehicle that waits, or whose exit tick has come, is only left behind if it travels
   * on and the vehicles in the buffer take up all flow capacity. Arriving vehicles are never held back.
   */
  lemma {:induction false} HeldBackOnlyByFlow(s: LinkState, now: Tick, p: real)
    requires LinkRuns.Inv(s, p)
    ensures var r := SimStep(s, now).s;
            LeftBehind(r, now) ==>
              && r.flow.remaining <= Pce(r.buffer)
              && (r.waiting != [] ==> !r.waiting[0].WantsToArrive())
              && (r.q != [] && r.q[0].exit <= now ==> !r.q[0].veh.WantsToArrive())
  {
    var u := UpdateFlow(s, now);
    var w := FillFromWaiting(u).s;
    var r := FillFromQueue(w, now).s;
    WaitingHeldBack(u);
    QueueHeldBack(w, now);
    LinkRuns.StepKeepsInv(s, now, p);
    assert forall v :: v in r.buffer ==> v in OnLink(r);
    PceGrows(w.buffer, r.buffer, p);
    hide FillFromWaiting, FillFromQueue, UpdateFlow, OnLink, Pce;
  }

  /**
   * The least a link lets out: if vehicles are still left behind after the last step of a run, what
   * left the link, what is in its buffer and what was lost to a full bucket is at least what was in
   * the bucket and the rate times the elapsed time.
   */
  lemma {:induction false} OutflowAtLeast(s: LinkState, acts: seq<LinkAction>, now: Tick, p: real)
    requires LinkRuns.Inv(s, p) && Admissible(acts, p) && s.flow.last <= TickNanos(s.attr.tps, now)
    requires Run(s, acts).flow.last <= TickNanos(s.attr.tps, now)
    requires LeftBehind(Run(s, acts + [Step(now)]), now)
    ensures var r := Run(s, acts + [Step(now)]);
            Released(s, acts + [Step(now)]) + Pce(r.buffer) + Lost(s, acts + [Step(now)]) >=
              s.flow.remaining + (TickNanos(s.attr.tps, now) - s.flow.last) as real * s.flow.perSecond / 1_000_000_000.0
  {
    hide SimStep, Run, Released, Lost, Pce, LeftBehind, TickNanos, Balanced, LinkRuns.Inv;
    var all := acts + [Step(now)];
    assert all[..|acts|] == acts && forall a :: a in all ==> a in acts || a == Step(now);
    OutflowIsExact(s, acts, p);
    OutflowIsExact(s, all, p);
    LinkRuns.RunKeepsInv(s, acts, p);
    LastStep(s, acts, now);
    var mid, r := Run(s, acts), Run(s, all);
    HeldBackOnlyByFlow(mid, now, p);
    FlowAfterStep(mid, now, p);
    AccountRead(s.flow, r.flow, Released(s, all), Lost(s, all));
    assert mid.attr == s.attr;
    assert r.flow.last == TickNanos(s.attr.tps, now);
    assert r.flow.remaining <= Pce(r.buffer);
  }

  lemma {:induction false} LastStep(s: LinkState, acts: seq<LinkAction>, now: Tick)
    requires s.attr.tps > 0
    ensures Run(s, acts + [Step(now)]) == SimStep(Run(s, acts), now).s
  {
    assert (acts + [Step(now)])[..|acts|] == acts;
  }

  lemma {:induction false} FlowAfterStep(s: LinkState, now: Tick, p: real)
    requires LinkRuns.Inv(s, p)
    ensures SimStep(s, now).s.flow == Refill(s.flow, TickNanos(s.attr.tps, now))
    ensures s.flow.last <= TickNanos(s.attr.tps, now) ==> SimStep(s, now).s.flow.last == TickNanos(s.attr.tps, now)
  {
    hide SimStep;
    SimStepShape(s, now);
  }

  lemma {:induction false} AccountRead(f: FlowState, g: FlowState, out: real, lost: real)
    requires Balanced(f, g, out, lost)
    ensures out + lost + g.remaining == f.remaining + (g.last - f.last) as real * f.perSecond / 1_000_000_000.0
  {
    var d := (g.last - f.last) as real;
    assert d / 1_000_000_000.0 * f.perSecond == d * f.perSecond / 1_000_000_000.0;
  }

  // ------------------------------------------------------------------ a bucket at rest

  /** As long as no vehicle leaves, when and how often the link is looked at makes no difference to its bucket. */
  lemma {:induction false} RestingBucket(s: LinkState, acts: seq<LinkAction>, t: nat)
    requires s.attr.tps > 0 && s.flow.perSecond >= 0.0
    requires forall a :: a in acts ==> !a.Leave? && (a.Step? ==> TickNanos(s.attr.tps, a.now) <= t)
    ensures Refill(Run(s, acts).flow, t) == Refill(s.flow, t) && Run(s, acts).flow.perSecond == s.flow.perSecond
  {
    hide TickNanos;
    if acts != [] {
      var front, a := acts[..|acts| - 1], acts[|acts| - 1];
      assert a in acts && forall b :: b in front ==> b in acts;
      RestingBucket(s, front, t);
      ActionAtRest(Run(s, front), a, t);
    }
  }

  lemma {:induction false} ActionAtRest(s: LinkState, a: LinkAction, t: nat)
    requires s.attr.tps > 0 && s.flow.perSecond >= 0.0 && !a.Leave? && (a.Step? ==> TickNanos(s.attr.tps, a.now) <= t)
    ensures Refill(Apply(s, a).flow, t) == Refill(s.flow, t) && Apply(s, a).flow.perSecond == s.flow.perSecond
  {
    hide SimStep, TravelTicks, TickNanos;
    if a.Step? {
      SimStepShape(s, a.now);
      RefillComposes(s.flow, TickNanos(s.attr.tps, a.now), t);
    }
  }

  /**
   * When a vehicle has left, the bucket is full again as soon as the elapsed time brings what is
   * missing, however the link is looked at in between; before that it has gained exactly what the
   * elapsed time brings.
   */
  lemma {:induction false} FullAgain(s: LinkState, acts: seq<LinkAction>, now: Tick, p: real)
    requires LinkRuns.Inv(s, p) && Admissible(acts, p)
    requires forall a :: a in acts ==> !a.Leave? && (a.Step? ==> TickNanos(s.attr.tps, a.now) <= TickNanos(s.attr.tps, now))
    requires s.flow.last <= TickNanos(s.attr.tps, now)
    ensures var t, r := TickNanos(s.attr.tps, now), Run(s, acts + [Step(now)]).flow.remaining;
            var gain := (t - s.flow.last) as real * s.flow.perSecond / 1_000_000_000.0;
            r == if s.flow.perTick - s.flow.remaining <= gain then s.flow.perTick else s.flow.remaining + gain
  {
    hide SimStep, Run, TickNanos;
    var t := TickNanos(s.attr.tps, now);
    RestingBucket(s, acts, t);
    LinkRuns.RunKeepsInv(s, acts, p);
    LastStep(s, acts, now);
    FlowAfterStep(Run(s, acts), now, p);
    RefillIsExact(s.flow, t);
  }

  // ------------------------------------------------------------------ queue entries

  /** A vehicle that enters the queue may leave it travel ticks later, and takes up its size until then. */
  lemma {:induction false} EntersQueue(s: LinkState, v: Vehicle, now: Tick)
    ensures var r := PushQueue(s, v, now);
            && |r.q| == |s.q| + 1 && r.q[..|s.q|] == s.q && r.q[|s.q|].veh == v
            && r.q[|s.q|].exit == (if now + TravelTicks(s.attr, v) < U64_MAX then now + TravelTicks(s.attr, v) else U64_MAX)
            && r.storage.used == s.storage.used + v.pce && r.buffer == s.buffer && r.waiting == s.waiting && r.flow == s.flow
  {
    hide TravelTicks;
  }
}
