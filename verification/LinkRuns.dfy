/**
 * Whole runs of one link. A run is any sequence of the things that happen to a link; the results
 * hold for every one of them.
 */
module LinkRuns {
  import opened Basics
  import opened FlowCap
  import opened Storage
  import opened StuckTimers
  import opened LinkSpec

  datatype LinkAction =
    | Enter(v: Vehicle, now: Tick)  // a vehicle enters the queue
    | Wait(v: Vehicle)              // a vehicle starts its leg here
    | Step(now: Tick)               // the link's own step
    | Ask(t: Tick)                  // the link is asked for its offer
    | Leave(now: Tick)              // the head of the buffer is taken by the node

  function Apply(s: LinkState, a: LinkAction): (r: LinkState)
    requires s.attr.tps > 0
    ensures r.attr == s.attr
  {
    match a
    case Enter(v, now) => PushQueue(s, v, now)
    case Wait(v) => PushWaiting(s, v)
    case Step(now) => SimStepShape(s, now); SimStep(s, now).s
    case Ask(t) => Offer(s, t)
    case Leave(_) => if s.buffer == [] then s else Pop(s)
  }

  function Run(s: LinkState, acts: seq<LinkAction>): (r: LinkState)
    requires s.attr.tps > 0
    ensures r.attr == s.attr
  {
    if acts == [] then s else Apply(Run(s, acts[..|acts| - 1]), acts[|acts| - 1])
  }

  /** The vehicles that come onto the link in a run are within the bound p. */
  predicate Admissible(acts: seq<LinkAction>, p: real)
  {
    forall a :: a in acts ==> (a.Enter? || a.Wait? ==> 0.0 < a.v.pce <= p)
  }

  // ------------------------------------------------------------------ the link invariant

  /**
   * The queue's storage account is exact, the bucket is not overfull, the buffer was filled
   * within the flow capacity up to one vehicle, and a timer only runs for an offered vehicle.
   */
  ghost predicate Inv(s: LinkState, p: real)
  {
    && s.attr.tps > 0
    && PceWithin(OnLink(s), p)
    && s.storage.used == Pce(Vehs(s.q))
    && Bounded(s.flow)
    && Pce(s.buffer) < s.flow.remaining + p
    && (s.timer.Some? ==> s.buffer != [])
  }

  predicate FlowRespected(s: LinkState, p: real)
  {
    Pce(s.buffer) < s.flow.remaining + p
  }

  lemma {:induction false} WaitingRespectsFlow(s: LinkState, p: real)
    requires PceWithin(s.waiting, p) && FlowRespected(s, p)
    ensures FlowRespected(FillFromWaiting(s).s, p)
    decreases |s.waiting|
  {
    if s.waiting != [] {
      var v := s.waiting[0];
      var rest := s.waiting[1..];
      assert v in s.waiting && forall x :: x in rest ==> x in s.waiting;
      if v.WantsToArrive() {
        WaitingRespectsFlow(s.(waiting := rest), p);
      } else if FlowLeft(s) {
        PceConcat(s.buffer, [v]);
        WaitingRespectsFlow(s.(waiting := rest, buffer := s.buffer + [v]), p);
      }
    }
  }

  lemma {:induction false} QueueRespectsFlow(s: LinkState, now: Tick, p: real)
    requires PceWithin(Vehs(s.q), p) && FlowRespected(s, p)
    ensures FlowRespected(FillFromQueue(s, now).s, p)
    decreases |s.q|
  {
    if s.q != [] && s.q[0].exit <= now {
      var v := s.q[0].veh;
      assert Vehs(s.q[1..]) == Vehs(s.q)[1..];
      assert v == Vehs(s.q)[0] && forall x :: x in Vehs(s.q)[1..] ==> x in Vehs(s.q);
      if v.WantsToArrive() {
        QueueRespectsFlow(PopQueue(s), now, p);
      } else if FlowLeft(s) {
        PceConcat(s.buffer, [v]);
        QueueRespectsFlow(PopQueue(s).(buffer := s.buffer + [v]), now, p);
      }
    }
  }

  lemma {:induction false} StepRespectsFlow(s: LinkState, now: Tick, p: real)
    requires Inv(s, p)
    ensures FlowRespected(SimStep(s, now).s, p)
  {
    var u := UpdateFlow(s, now);
    RefillBounds(s.flow, TickNanos(s.attr.tps, now));
    assert forall v :: v in s.waiting ==> v in OnLink(s);
    assert forall v :: v in Vehs(s.q) ==> v in OnLink(s);
    WaitingRespectsFlow(u, p);
    FillFromWaitingShape(u);
    QueueRespectsFlow(FillFromWaiting(u).s, now, p);
  }

  /** Every vehicle that was on the link before a step is still there or has ended its leg. */
  lemma {:induction false} StepConserves(s: LinkState, now: Tick)
    requires s.attr.tps > 0
    ensures multiset(OnLink(s)) == multiset(OnLink(SimStep(s, now).s)) + multiset(SimStep(s, now).ended)
  {
    hide SimStep, Arriving, Continuing, Pce, UpdateFlow;
    SimStepShape(s, now);
    var r := SimStep(s, now);
    var w, k := WaitingTaken(s, now), QueueTaken(s, now);
    hide WaitingTaken, QueueTaken;
    var q0, q1, w0, w1 := Vehs(s.q[..k]), Vehs(s.q[k..]), s.waiting[..w], s.waiting[w..];
    SplitByArrival(w0);
    SplitByArrival(q0);
    assert OnLink(s) == q0 + q1 + s.buffer + (w0 + w1);
    assert OnLink(r.s) == q1 + (s.buffer + Continuing(w0) + Continuing(q0)) + w1;
    Rearranged(q0, q1, s.buffer, w0, w1, Arriving(w0), Continuing(w0), Arriving(q0), Continuing(q0));
  }

  lemma {:induction false} Rearranged(q0: seq<Vehicle>, q1: seq<Vehicle>, b: seq<Vehicle>, w0: seq<Vehicle>, w1: seq<Vehicle>,
                                      aw: seq<Vehicle>, cw: seq<Vehicle>, aq: seq<Vehicle>, cq: seq<Vehicle>)
    requires multiset(w0) == multiset(aw) + multiset(cw) && multiset(q0) == multiset(aq) + multiset(cq)
    ensures multiset(q0 + q1 + b + (w0 + w1)) == multiset(q1 + (b + cw + cq) + w1) + multiset(aw + aq)
  {
  }

  lemma {:induction false} StepKeepsPce(s: LinkState, now: Tick, p: real)
    requires s.attr.tps > 0 && PceWithin(OnLink(s), p)
    ensures PceWithin(OnLink(SimStep(s, now).s), p) && PceWithin(SimStep(s, now).ended, p)
  {
    var r := SimStep(s, now);
    StepConserves(s, now);
    forall v | v in OnLink(r.s) || v in r.ended
      ensures 0.0 < v.pce <= p
    {
      assert v in multiset(OnLink(r.s)) + multiset(r.ended);
      assert v in multiset(OnLink(s));
      assert v in OnLink(s);
    }
  }

  /** A step releases exactly the storage of the vehicles that it takes from the queue. */
  lemma {:induction false} StepKeepsStorage(s: LinkState, now: Tick)
    requires s.attr.tps > 0 && s.storage.used == Pce(Vehs(s.q))
    ensures var r := SimStep(s, now).s; r.storage.used == Pce(Vehs(r.q)) && r.storage.max == s.storage.max
  {
    SimStepShape(s, now);
    var k := QueueTaken(s, now);
    assert Vehs(s.q) == Vehs(s.q[..k]) + Vehs(s.q[k..]);
    PceConcat(Vehs(s.q[..k]), Vehs(s.q[k..]));
  }

  lemma {:induction false} StepKeepsInv(s: LinkState, now: Tick, p: real)
    requires Inv(s, p)
    ensures Inv(SimStep(s, now).s, p)
    ensures PceWithin(SimStep(s, now).ended, p)
  {
    SimStepShape(s, now);
    StepRespectsFlow(s, now, p);
    StepKeepsPce(s, now, p);
    StepKeepsStorage(s, now);
    RefillBounds(s.flow, TickNanos(s.attr.tps, now));
  }

  lemma {:induction false} PopKeepsInv(s: LinkState, p: real)
    requires Inv(s, p) && s.buffer != []
    ensures Inv(Pop(s), p)
  {
    assert s.buffer == [s.buffer[0]] + s.buffer[1..];
    PceConcat([s.buffer[0]], s.buffer[1..]);
    assert s.buffer[0] in OnLink(s);
    forall v | v in OnLink(Pop(s))
      ensures v in OnLink(s)
    {
    }
  }

  lemma {:induction false} PushKeepsInv(s: LinkState, v: Vehicle, now: Tick, p: real)
    requires Inv(s, p) && 0.0 < v.pce <= p
    ensures Inv(PushQueue(s, v, now), p)
  {
    var r := PushQueue(s, v, now);
    assert Vehs(r.q) == Vehs(s.q) + [v];
    PceConcat(Vehs(s.q), [v]);
    forall x | x in OnLink(r)
      ensures x in OnLink(s) || x == v
    {
    }
  }

  lemma {:induction false} ApplyKeepsInv(s: LinkState, a: LinkAction, p: real)
    requires Inv(s, p) && (a.Enter? || a.Wait? ==> 0.0 < a.v.pce <= p)
    ensures Inv(Apply(s, a), p)
  {
    match a
    case Enter(v, now) => PushKeepsInv(s, v, now, p);
    case Wait(v) =>
      assert forall x :: x in OnLink(PushWaiting(s, v)) ==> x in OnLink(s) || x == v;
    case Step(now) => StepKeepsInv(s, now, p);
    case Ask(t) =>
    case Leave(_) => if s.buffer != [] { PopKeepsInv(s, p); }
  }

  /** Every link state that any run can reach satisfies the invariant. */
  lemma {:induction false} RunKeepsInv(s: LinkState, acts: seq<LinkAction>, p: real)
    requires Inv(s, p) && Admissible(acts, p)
    ensures Inv(Run(s, acts), p)
  {
    if acts != [] {
      var front := acts[..|acts| - 1];
      assert forall a :: a in front ==> a in acts;
      assert acts[|acts| - 1] in acts;
      RunKeepsInv(s, front, p);
      ApplyKeepsInv(Run(s, front), acts[|acts| - 1], p);
    }
  }

  // ------------------------------------------------------------------ the token bucket

  /** The passenger car equivalents that leave through the node in a run. */
  function Released(s: LinkState, acts: seq<LinkAction>): (r: real)
    requires s.attr.tps > 0
  {
    if acts == [] then 0.0
    else
      var front := acts[..|acts| - 1];
      Released(s, front) + Outflow(Run(s, front), acts[|acts| - 1])
  }

  /** What one action takes out of the link. */
  function Outflow(s: LinkState, a: LinkAction): (r: real)
  {
    if a.Leave? && s.buffer != [] then s.buffer[0].pce else 0.0
  }

  /** The account of one action: outflow is paid for by the bucket's content and by refills. */
  ghost predicate Paid(f: FlowState, g: FlowState, outflow: real)
  {
    && f.last <= g.last && f.perSecond == g.perSecond && f.perTick == g.perTick
    && outflow <= f.remaining - g.remaining + Seconds(g.last - f.last) * f.perSecond
  }

  lemma {:induction false} ActionPaid(s: LinkState, a: LinkAction, p: real)
    requires Inv(s, p)
    ensures Paid(s.flow, Apply(s, a).flow, Outflow(s, a))
  {
    hide Seconds, SimStep, TravelTicks, Pce, OnLink;
    SecondsAdd(0, 0, s.flow.perSecond);
    if a.Step? {
      StepPaid(s, a.now, p);
    }
  }

  lemma {:induction false} StepPaid(s: LinkState, now: Tick, p: real)
    requires Inv(s, p)
    ensures Paid(s.flow, SimStep(s, now).s.flow, 0.0)
  {
    hide Seconds, SimStep, Pce, OnLink;
    SimStepShape(s, now);
    SecondsAdd(0, 0, s.flow.perSecond);
    RefillBounds(s.flow, TickNanos(s.attr.tps, now));
  }

  lemma {:induction false} PaidAdds(f: FlowState, g: FlowState, h: FlowState, x: real, y: real)
    requires Paid(f, g, x) && Paid(g, h, y)
    ensures Paid(f, h, x + y)
  {
    SecondsAdd(g.last - f.last, h.last - g.last, f.perSecond);
    assert g.last - f.last + (h.last - g.last) == h.last - f.last;
  }

  /** The account of a whole run. */
  lemma {:induction false} ReleaseAccount(s: LinkState, acts: seq<LinkAction>, p: real)
    requires Inv(s, p) && Admissible(acts, p)
    ensures Paid(s.flow, Run(s, acts).flow, Released(s, acts))
  {
    if acts == [] {
      SecondsAdd(0, 0, s.flow.perSecond);
    } else {
      var front, a := acts[..|acts| - 1], acts[|acts| - 1];
      assert forall x :: x in front ==> x in acts;
      ReleaseAccount(s, front, p);
      RunKeepsInv(s, front, p);
      var mid := Run(s, front);
      ActionPaid(mid, a, p);
      PaidAdds(s.flow, mid.flow, Apply(mid, a).flow, Released(s, front), Outflow(mid, a));
    }
  }

  /**
   * The outflow of a link: from a state whose bucket was last refilled at time a, to any later
   * state reached with refills up to time b, less leaves the link than one tick's capacity, plus
   * the rate times the elapsed time, plus one vehicle.
   */
  lemma {:induction false} OutflowBound(s: LinkState, acts: seq<LinkAction>, p: real, b: nat)
    requires Inv(s, p) && Admissible(acts, p)
    requires Run(s, acts).flow.last <= b
    ensures s.flow.last <= b
    ensures Released(s, acts) < s.flow.perTick + Seconds(b - s.flow.last) * s.flow.perSecond + p
  {
    hide Paid, Seconds, Released;
    assert Bounded(s.flow);
    hide Inv;
    ReleaseAccount(s, acts, p);
    RunKeepsInv(s, acts, p);
    var r := Run(s, acts);
    hide Run;
    NotOverdrawn(r, p);
    PaidWithin(s.flow, r.flow, Released(s, acts), p, b);
  }

  /** The bucket is overdrawn by less than one vehicle. */
  lemma {:induction false} NotOverdrawn(s: LinkState, p: real)
    requires Inv(s, p)
    ensures s.flow.remaining > -p
  {
    assert forall v :: v in s.buffer ==> v in OnLink(s);
    PcePositive(s.buffer, p);
  }

  lemma {:induction false} PaidWithin(f: FlowState, g: FlowState, outflow: real, p: real, b: nat)
    requires Paid(f, g, outflow) && Bounded(f) && g.remaining > -p && g.last <= b
    ensures f.last <= b
    ensures outflow < f.perTick + Seconds(b - f.last) * f.perSecond + p
  {
    var x, y := g.last - f.last, b - g.last;
    SecondsAdd(x, y, f.perSecond);
    SecondsAdd(y, 0, f.perSecond);
    assert x + y == b - f.last;
  }

  // ------------------------------------------------------------------ the stuck timer

  /** No vehicle left the link, and the timer kept its value, from index i on. */
  ghost predicate HeadUnchangedSince(s: LinkState, acts: seq<LinkAction>, i: nat)
    requires s.attr.tps > 0 && i < |acts|
  {
    var r := Run(s, acts);
    forall j :: i < j <= |acts| ==>
      var m := Run(s, acts[..j]);
      && m.timer == r.timer
      && m.buffer != [] && r.buffer != [] && m.buffer[0] == r.buffer[0]
  }

  /**
   * A running timer was started when the link was asked at that very tick, and ever since the
   * same vehicle has been at the head of the buffer.
   */
  lemma {:induction false} TimerMeansSameHead(s: LinkState, acts: seq<LinkAction>, p: real) returns (i: nat)
    requires Inv(s, p) && Admissible(acts, p) && s.timer == None
    requires Run(s, acts).timer.Some?
    ensures i < |acts| && acts[i] == Ask(Run(s, acts).timer.value)
    ensures Offers(Run(s, acts[..i])) && Run(s, acts[..i]).timer == None
    ensures HeadUnchangedSince(s, acts, i)
  {
    hide Apply, Offers;
    assert s.attr.tps > 0;
    hide Inv;
    var n := |acts| - 1;
    var front, a := acts[..n], acts[n];
    var mid, r := Run(s, front), Run(s, acts);
    assert r == Apply(mid, a);
    RunKeepsInv(s, front, p);
    assert acts[..n + 1] == acts;
    if mid.timer.None? {
      TimerStarts(mid, a);
      i := n;
    } else {
      i := TimerMeansSameHead(s, front, p);
      HeadKept(mid, a, p);
      assert front[..i] == acts[..i];
      forall j | i < j <= |acts|
        ensures var m := Run(s, acts[..j]);
                m.timer == r.timer && m.buffer != [] && r.buffer != [] && m.buffer[0] == r.buffer[0]
      {
        if j <= n {
          assert front[..j] == acts[..j];
          assert Run(s, front[..j]).timer == mid.timer;
        }
      }
    }
  }

  /** Only asking for an offer starts a timer, and only if there is one. */
  lemma {:induction false} TimerStarts(s: LinkState, a: LinkAction)
    requires s.attr.tps > 0 && s.timer.None? && Apply(s, a).timer.Some?
    ensures a == Ask(Apply(s, a).timer.value) && Offers(s) && Apply(s, a).buffer == s.buffer && s.buffer != []
  {
    if a.Step? {
      SimStepShape(s, a.now);
    }
  }

  /** As long as a timer runs, no action changes the head of the buffer without resetting it. */
  lemma {:induction false} HeadKept(s: LinkState, a: LinkAction, p: real)
    requires Inv(s, p) && s.timer.Some? && Apply(s, a).timer.Some?
    ensures var r := Apply(s, a);
            r.timer == s.timer && s.buffer != [] && r.buffer != [] && r.buffer[0] == s.buffer[0]
  {
    if a.Step? {
      SimStepShape(s, a.now);
    }
  }
}
