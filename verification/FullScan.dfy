/**
 * Looking only at active links and nodes loses nothing. The reference is a simulation that lets
 * every node work and steps every link in every tick; the two agree on every vehicle, every queue
 * and every account, and on the flow capacities up to the refills that are made later, when they
 * are needed.
 */
module FullScan {
  import opened Basics
  import opened FlowCap
  import opened Storage
  import opened StuckTimers
  import opened LinkSpec
  import LinkRuns
  import opened RoadNetwork
  import opened Links
  import opened NetSpec
  import opened NodeMoves
  import opened NodeLoop
  import NetInvariant
  import Partition
  import Clock

  /** b is link state a with its bucket refilled up to time t; with vehicles in the buffer it already was. */
  ghost predicate Behind(a: LinkState, b: LinkState, t: nat)
  {
    b == a.(flow := Refill(a.flow, t)) && (a.buffer != [] ==> b == a)
  }

  ghost predicate BehindLink(a: SimLinkState, b: SimLinkState, t: nat)
  {
    && a.Out? == b.Out? && a.In? == b.In?
    && (a.Out? ==> a == b)
    && (a.In? ==> a.fromPart == b.fromPart)
    && (!a.Out? ==> Behind(a.s, b.s, t))
  }

  /** The two simulations agree at time t. */
  ghost predicate Agree(a: NetState, b: NetState, t: nat)
  {
    a.links.Keys == b.links.Keys && forall l :: l in a.links ==> BehindLink(a.links[l], b.links[l], t)
  }

  // ------------------------------------------------------------------ single links

  /** A bucket that equals its own refill is up to date, and stays so when something is consumed. */
  lemma {:induction false} UpToDate(f: FlowState, t: nat, amount: real)
    requires Refill(f, t) == f
    ensures Refill(Consume(f, amount), t) == Consume(f, amount)
  {
  }

  lemma {:induction false} PopBehind(a: LinkState, b: LinkState, t: nat)
    requires Behind(a, b, t) && a.buffer != []
    ensures b.buffer != [] && Behind(Pop(a), Pop(b), t)
  {
    UpToDate(a.flow, t, a.buffer[0].pce);
  }

  lemma {:induction false} OfferBehind(a: LinkState, b: LinkState, t: nat, now: Tick)
    requires Behind(a, b, t)
    ensures Offers(a) == Offers(b) && Behind(Offer(a, now), Offer(b, now), t)
  {
  }

  /** The step of a link comes to the same, however long ago its bucket was refilled. */
  lemma {:induction false} StepBehind(a: LinkState, b: LinkState, t: nat, now: Tick)
    requires Behind(a, b, t) && a.attr.tps > 0 && a.flow.perSecond >= 0.0 && t <= TickNanos(a.attr.tps, now)
    ensures SimStep(a, now) == SimStep(b, now)
  {
    RefillComposes(a.flow, t, TickNanos(a.attr.tps, now));
    assert UpdateFlow(a, now) == UpdateFlow(b, now);
    hide FillFromWaiting, FillFromQueue, UpdateFlow;
  }

  lemma {:induction false} StepIsUpToDate(a: LinkState, now: Tick)
    requires a.attr.tps > 0
    ensures var r := SimStep(a, now).s; Behind(r, r, TickNanos(a.attr.tps, now))
  {
    SimStepShape(a, now);
    hide SimStep, Arriving, Continuing, Pce;
  }

  /** The step of an idle link does nothing but refill its bucket. */
  lemma {:induction false} IdleStep(a: LinkState, b: LinkState, t: nat, now: Tick)
    requires Behind(a, b, t) && a.attr.tps > 0 && a.flow.perSecond >= 0.0 && t <= TickNanos(a.attr.tps, now)
    requires !Active(a)
    ensures var f := SimStep(b, now);
            && f.ended == [] && !Active(f.s) && Offer(f.s, Next(now)) == f.s
            && f.s.storage == b.storage && Behind(a, f.s, TickNanos(a.attr.tps, now))
  {
    RefillComposes(a.flow, t, TickNanos(a.attr.tps, now));
  }

  // ------------------------------------------------------------------ everything but the steps of links

  lemma {:induction false} PushBehind(a: SimLinkState, b: SimLinkState, v: Vehicle, now: Tick, t: nat)
    requires BehindLink(a, b, t)
    ensures BehindLink(Push(a, v, now), Push(b, v, now), t)
  {
    hide TravelTicks;
  }

  lemma {:induction false} AgreeAfter(a: NetState, b: NetState, l: LinkId, u: SimLinkState, v: SimLinkState, t: nat)
    requires Agree(a, b, t) && l in a.links && BehindLink(u, v, t)
    ensures Agree(a.(links := a.links[l := u]), b.(links := b.links[l := v]), t)
  {
    hide BehindLink;
  }

  lemma {:induction false} SameEnabled(x: Context, a: NetState, b: NetState, act: NetAction, t: nat)
    requires Agree(a, b, t) && !act.StepLink?
    ensures Enabled(x, a, act) == Enabled(x, b, act)
  {
    hide Refill;
    forall l | l in a.links
      ensures MoveIsDefined(a, l) == MoveIsDefined(b, l)
      ensures OffersVeh(a.links[l]) == OffersVeh(b.links[l])
      ensures act.Move? ==> ShouldMove(a, l, act.now) == ShouldMove(b, l, act.now)
    {
      SameMove(a, b, l, t, if act.Move? then act.now else 0);
    }
    hide ShouldMove, MoveIsDefined, OffersVeh, Behind;
  }

  lemma {:induction false} SameMove(a: NetState, b: NetState, l: LinkId, t: nat, now: Tick)
    requires Agree(a, b, t) && l in a.links
    ensures MoveIsDefined(a, l) == MoveIsDefined(b, l)
    ensures OffersVeh(a.links[l]) == OffersVeh(b.links[l])
    ensures ShouldMove(a, l, now) == ShouldMove(b, l, now)
  {
    hide Refill;
    assert BehindLink(a.links[l], b.links[l], t);
    if !a.links[l].Out? {
      OfferBehind(a.links[l].s, b.links[l].s, t, now);
      if a.links[l].s.buffer != [] && a.links[l].s.buffer[0].PeekNext().Some? && NextOf(a, l) in a.links {
        assert BehindLink(a.links[NextOf(a, l)], b.links[NextOf(b, l)], t);
      }
    }
  }

  lemma {:induction false} MoveAgrees(a: NetState, b: NetState, l: LinkId, now: Tick, t: nat)
    requires Agree(a, b, t) && MoveIsDefined(a, l) && MoveIsDefined(b, l)
    ensures Agree(MoveVehicle(a, l, now), MoveVehicle(b, l, now), t)
  {
    assert BehindLink(a.links[l], b.links[l], t);
    PopBehind(a.links[l].s, b.links[l].s, t);
    var n, v := NextOf(a, l), a.links[l].s.buffer[0].LeftLink();
    var a1, b1 := NetInvariant.Popped(a, l), NetInvariant.Popped(b, l);
    AgreeAfter(a, b, l, a1.links[l], b1.links[l], t);
    assert BehindLink(a1.links[n], b1.links[n], t);
    PushBehind(a1.links[n], b1.links[n], v, now, t);
    AgreeAfter(a1, b1, n, Push(a1.links[n], v, now), Push(b1.links[n], v, now), t);
    NetInvariant.MoveInTwo(a, l, now);
    NetInvariant.MoveInTwo(b, l, now);
    hide MoveVehicle, Push, BehindLink;
  }

  /** One and the same action keeps the two in agreement. */
  lemma {:induction false} ActionAgrees(x: Context, a: NetState, b: NetState, act: NetAction, t: nat)
    requires Agree(a, b, t) && !act.StepLink?
    ensures Agree(Apply(x, a, act), Apply(x, b, act), t)
    ensures Enabled(x, a, act) == Enabled(x, b, act)
  {
    hide Refill, Push, MoveVehicle;
    SameEnabled(x, a, b, act, t);
    if Enabled(x, a, act) {
      match act
      case Begin(v) =>
        var l := v.Curr().value;
        assert BehindLink(a.links[l], b.links[l], t);
        AgreeAfter(a, b, l, Apply(x, a, act).links[l], Apply(x, b, act).links[l], t);
      case Receive(v, now) =>
        var l := v.Curr().value;
        PushBehind(a.links[l], b.links[l], v, now, t);
        AgreeAfter(a, b, l, Push(a.links[l], v, now), Push(b.links[l], v, now), t);
      case Look(l, now) =>
        OfferBehind(a.links[l].s, b.links[l].s, t, now);
        AgreeAfter(a, b, l, Apply(x, a, act).links[l], Apply(x, b, act).links[l], t);
      case Move(l, now) =>
        MoveAgrees(a, b, l, now, t);
      case Rest(n) =>
      case Credit(l, _) =>
        assert BehindLink(a.links[l], b.links[l], t);
        AgreeAfter(a, b, l, Apply(x, a, act).links[l], Apply(x, b, act).links[l], t);
    }
  }

  // ------------------------------------------------------------------ the steps of links

  /** What the step of a link gives: vehicles taken off, released storage, and an offer for the next tick. */
  ghost function Output(sl: SimLinkState, now: Tick): (r: (seq<Vehicle>, real, bool))
    requires !sl.Out? ==> sl.s.attr.tps > 0
  {
    if sl.Out? then (sl.o.q, 0.0, false)
    else
      var f := SimStep(sl.s, now);
      (f.ended, sl.s.storage.used - f.s.storage.used, Offers(f.s))
  }

  lemma {:induction false} StepAgrees(x: Context, p: real, a: NetState, l: LinkId, b: SimLinkState, t: nat, now: Tick)
    requires NetInvariant.Inv(x, p, a) && l in a.links && BehindLink(a.links[l], b, t) && t <= TickNanos(x.c.tps, now)
    ensures !b.Out? ==> b.s.attr.tps > 0
    ensures !a.links[l].Out? ==> a.links[l].s.attr.tps > 0
    ensures l in a.activeLinks ==>
              BehindLink(NetInvariant.Stepped(a.links[l], now), NetInvariant.Stepped(b, now), TickNanos(x.c.tps, now))
              && Output(b, now) == Output(a.links[l], now)
    ensures l !in a.activeLinks ==>
              BehindLink(a.links[l], NetInvariant.Stepped(b, now), TickNanos(x.c.tps, now)) && Output(b, now) == ([], 0.0, false)
  {
    hide NetInvariant.Inv, SimStep, Refill, Active, Offers, Offer, NetInvariant.Stepped, Output, TickNanos;
    LinkFacts(x, p, a, l);
    if l in a.activeLinks {
      ActiveAgrees(a.links[l], b, t, now, x.c.tps);
    } else {
      IdleAgrees(a.links[l], b, t, now, x.c.tps);
    }
  }

  lemma {:induction false} ActiveAgrees(a: SimLinkState, b: SimLinkState, t: nat, now: Tick, tps: nat)
    requires BehindLink(a, b, t) && tps > 0 && t <= TickNanos(tps, now)
    requires !a.Out? ==> a.s.attr.tps == tps && a.s.flow.perSecond >= 0.0
    ensures BehindLink(NetInvariant.Stepped(a, now), NetInvariant.Stepped(b, now), TickNanos(tps, now))
    ensures Output(b, now) == Output(a, now)
  {
    hide SimStep, Refill, Active, Offers, Offer, TickNanos;
    if !a.Out? {
      StepBehind(a.s, b.s, t, now);
      StepIsUpToDate(a.s, now);
      OfferBehind(SimStep(a.s, now).s, SimStep(a.s, now).s, TickNanos(tps, now), Next(now));
    }
  }

  lemma {:induction false} IdleAgrees(a: SimLinkState, b: SimLinkState, t: nat, now: Tick, tps: nat)
    requires BehindLink(a, b, t) && tps > 0 && t <= TickNanos(tps, now)
    requires !a.Out? ==> a.s.attr.tps == tps && a.s.flow.perSecond >= 0.0
    requires if a.Out? then a.o.q == [] else !Active(a.s)
    ensures BehindLink(a, NetInvariant.Stepped(b, now), TickNanos(tps, now))
    ensures Output(b, now) == ([], 0.0, false)
  {
    hide SimStep, Refill, Active, Offers, Offer, TickNanos;
    if !a.Out? {
      IdleStep(a.s, b.s, t, now);
      NoOffer(SimStep(b.s, now).s);
    }
  }

  lemma {:induction false} NoOffer(s: LinkState)
    requires !Active(s)
    ensures !Offers(s)
  {
  }

  lemma {:induction false} LinkFacts(x: Context, p: real, a: NetState, l: LinkId)
    requires NetInvariant.Inv(x, p, a) && l in a.links
    ensures x.c.tps > 0
    ensures !a.links[l].Out? ==> a.links[l].s.attr.tps == x.c.tps && a.links[l].s.flow.perSecond >= 0.0
    ensures l !in a.activeLinks ==> if a.links[l].Out? then a.links[l].o.q == [] else !Active(a.links[l].s)
  {
    hide NetInvariant.OnNet, NetInvariant.NodesOk, NetInvariant.Placed, Pce;
    assert NetInvariant.LinkOk(x, p, l, a.links[l]);
    if !a.links[l].Out? {
      NetInvariant.ActiveMeansContents(a.links[l].s);
    }
  }

  /** The step of the active links here, the step of all links there. */
  lemma {:induction false} StepsAgree(x: Context, p: real, a: NetState, b: NetState, a1: NetState, b1: NetState, t: nat, now: Tick)
    requires x.c.tps > 0 && NetInvariant.Inv(x, p, a) && Agree(a, b, t) && t <= TickNanos(x.c.tps, now)
    requires Partition.SteppedExactly(a, a1, a.activeLinks, now) && Partition.SteppedExactly(b, b1, b.links.Keys, now)
    ensures Agree(a1, b1, TickNanos(x.c.tps, now))
    ensures forall l :: l in b.links ==>
              && (!b.links[l].Out? ==> b.links[l].s.attr.tps > 0)
              && (!a.links[l].Out? ==> a.links[l].s.attr.tps > 0)
              && Output(b.links[l], now) == if l in a.activeLinks then Output(a.links[l], now) else ([], 0.0, false)
  {
    hide NetInvariant.Inv, BehindLink, Output, NetInvariant.Stepped;
    forall l | l in b.links
      ensures BehindLink(a1.links[l], b1.links[l], TickNanos(x.c.tps, now))
      ensures !b.links[l].Out? ==> b.links[l].s.attr.tps > 0
      ensures !a.links[l].Out? ==> a.links[l].s.attr.tps > 0
      ensures Output(b.links[l], now) == if l in a.activeLinks then Output(a.links[l], now) else ([], 0.0, false)
    {
      StepAgrees(x, p, a, l, b.links[l], t, now);
    }
  }

  /** A node that is not active has nothing to do: none of its links offers a vehicle, and asking them changes nothing. */
  lemma {:induction false} InactiveNodeIdle(x: Context, p: real, a: NetState, b: NetState, t: nat, l: LinkId, now: Tick)
    requires NetInvariant.Inv(x, p, a) && Agree(a, b, t) && l in b.links && !b.links[l].Out?
    requires l in x.g.links && x.g.links[l].to !in a.activeNodes
    ensures !Enabled(x, b, Move(l, now)) && Apply(x, b, Look(l, now)) == b
  {
    hide NetInvariant.LinksOk, NetInvariant.OnNet, NetInvariant.ActiveOk, Refill;
    assert !OffersVeh(a.links[l]);
    SameMove(a, b, l, t, now);
    assert b.links[l := b.links[l]] == b.links;
  }

  /** Whatever the draws, the loop of such a node moves nothing, and asking its links for offers changes nothing. */
  lemma {:induction false} InactiveNodeWorksInVain(x: Context, p: real, a: NetState, b: NetState, t: nat, n: NodeId, ls: seq<LinkId>, r: Round,
                                                   draws: seq<real>, now: Tick)
    requires NetInvariant.Inv(x, p, a) && Agree(a, b, t) && n !in a.activeNodes && AllKnown(x, ls) && |r.ex| == |ls|
    requires forall l :: l in ls ==> LeadsTo(x, l, n) && l in b.links && !b.links[l].Out?
    ensures Rounds(x, b, ls, r, draws, now).0 == b && AskUntil(x, b, ls, Next(now)) == b
  {
    hide NetInvariant.Inv, Apply, Agree, Rounds, AskUntil, Enabled;
    forall l, u: Tick | l in ls
      ensures Apply(x, b, Look(l, u)) == b && !ShouldMove(b, l, u)
    {
      InactiveNodeIdle(x, p, a, b, t, l, u);
      MoveNeeds(x, b, l, u);
    }
    RoundsInVain(x, b, ls, r, draws, now);
    AskInVain(x, b, ls, Next(now));
  }

  lemma {:induction false} MoveNeeds(x: Context, net: NetState, l: LinkId, now: Tick)
    ensures Enabled(x, net, Move(l, now)) <==> ShouldMove(net, l, now)
  {
  }

  lemma {:induction false} VisitsInVain(x: Context, net: NetState, ls: seq<LinkId>, j: nat, r: Round, drawn: real, now: Tick)
    requires AllKnown(x, ls) && j <= |ls| == |r.ex|
    requires forall l :: l in ls ==> Apply(x, net, Look(l, now)) == net && !ShouldMove(net, l, now)
    ensures Visits(x, net, ls, j, r, drawn, now).0 == net
  {
    hide Apply, ShouldMove, CapOf;
    if j > 0 {
      VisitsInVain(x, net, ls, j - 1, r, drawn, now);
      assert ls[j - 1] in ls;
    }
  }

  lemma {:induction false} RoundsInVain(x: Context, net: NetState, ls: seq<LinkId>, r: Round, draws: seq<real>, now: Tick)
    requires AllKnown(x, ls) && |ls| == |r.ex|
    requires forall l :: l in ls ==> Apply(x, net, Look(l, now)) == net && !ShouldMove(net, l, now)
    ensures Rounds(x, net, ls, r, draws, now).0 == net
    decreases |draws|
  {
    hide Apply, ShouldMove, CapOf, Visits, Share;
    if draws != [] {
      var k := |draws| - 1;
      RoundsInVain(x, net, ls, r, draws[..k], now);
      var s := Rounds(x, net, ls, r, draws[..k], now);
      VisitsInVain(x, net, ls, |ls|, s.1, Share(draws[k], s.1.avail), now);
    }
  }

  lemma {:induction false} AskInVain(x: Context, net: NetState, ls: seq<LinkId>, t: Tick)
    requires forall l :: l in ls ==> Apply(x, net, Look(l, t)) == net
    ensures AskUntil(x, net, ls, t) == net
    decreases |ls|
  {
    hide Apply;
    if ls != [] {
      assert ls[0] in ls && forall l :: l in ls[1..] ==> l in ls;
      AskInVain(x, net, ls[1..], t);
    }
  }

  // ------------------------------------------------------------------ the work of nodes, with the same draws

  lemma {:induction false} WorkAgrees(x: Context, a: NetState, b: NetState, acts: seq<NetAction>, t: nat)
    requires Agree(a, b, t) && forall act :: act in acts ==> !act.StepLink?
    ensures Agree(Run(x, a, acts), Run(x, b, acts), t) && Legal(x, a, acts) == Legal(x, b, acts)
  {
    hide Agree, Apply, Enabled;
    if acts != [] {
      var front, act := acts[..|acts| - 1], acts[|acts| - 1];
      assert act in acts && forall c :: c in front ==> c in acts;
      WorkAgrees(x, a, b, front, t);
      ActionAgrees(x, Run(x, a, front), Run(x, b, front), act, t);
    }
  }

  lemma {:induction false} VisitsAgree(x: Context, a: NetState, b: NetState, ls: seq<LinkId>, j: nat, r: Round, drawn: real, now: Tick, t: nat)
    requires Agree(a, b, t) && AllKnown(x, ls) && j <= |ls| == |r.ex|
    ensures var u, v := Visits(x, a, ls, j, r, drawn, now), Visits(x, b, ls, j, r, drawn, now);
            Agree(u.0, v.0, t) && u.1 == v.1
  {
    hide Agree, VisitOne;
    if j > 0 {
      VisitsAgree(x, a, b, ls, j - 1, r, drawn, now, t);
      var u, v := Visits(x, a, ls, j - 1, r, drawn, now), Visits(x, b, ls, j - 1, r, drawn, now);
      VisitAgrees(x, u.0, v.0, ls, j - 1, u.1, drawn, now, t);
    }
  }

  lemma {:induction false} VisitAgrees(x: Context, a: NetState, b: NetState, ls: seq<LinkId>, i: nat, r: Round, drawn: real, now: Tick, t: nat)
    requires Agree(a, b, t) && AllKnown(x, ls) && i < |ls| == |r.ex|
    ensures var u, v := VisitOne(x, a, ls, i, r, drawn, now), VisitOne(x, b, ls, i, r, drawn, now);
            Agree(u.0, v.0, t) && u.1 == v.1
  {
    hide Agree, Apply, ShouldMove, CapOf;
    var l := ls[i];
    ActionAgrees(x, a, b, Look(l, now), t);
    var la, lb := Apply(x, a, Look(l, now)), Apply(x, b, Look(l, now));
    SameShould(la, lb, l, t, now);
    ActionAgrees(x, la, lb, Move(l, now), t);
  }

  lemma {:induction false} SameShould(a: NetState, b: NetState, l: LinkId, t: nat, now: Tick)
    requires Agree(a, b, t)
    ensures ShouldMove(a, l, now) == ShouldMove(b, l, now)
    ensures (l in a.links && OffersVeh(a.links[l])) == (l in b.links && OffersVeh(b.links[l]))
  {
    if l in a.links {
      SameMove(a, b, l, t, now);
    }
  }

  lemma {:induction false} RoundsAgree(x: Context, a: NetState, b: NetState, ls: seq<LinkId>, r: Round, draws: seq<real>, now: Tick, t: nat)
    requires Agree(a, b, t) && AllKnown(x, ls) && |ls| == |r.ex|
    ensures var u, v := Rounds(x, a, ls, r, draws, now), Rounds(x, b, ls, r, draws, now);
            Agree(u.0, v.0, t) && u.1 == v.1
    decreases |draws|
  {
    hide Agree, Visits, Share;
    if draws != [] {
      var k := |draws| - 1;
      RoundsAgree(x, a, b, ls, r, draws[..k], now, t);
      var u, v := Rounds(x, a, ls, r, draws[..k], now), Rounds(x, b, ls, r, draws[..k], now);
      VisitsAgree(x, u.0, v.0, ls, |ls|, u.1, Share(draws[k], u.1.avail), now, t);
    }
  }

  lemma {:induction false} AskAgrees(x: Context, a: NetState, b: NetState, ls: seq<LinkId>, u: Tick, t: nat)
    requires Agree(a, b, t)
    ensures Agree(AskUntil(x, a, ls, u), AskUntil(x, b, ls, u), t)
    decreases |ls|
  {
    hide Agree, Apply, OffersVeh;
    if ls != [] {
      SameShould(a, b, ls[0], t, u);
      ActionAgrees(x, a, b, Look(ls[0], u), t);
      AskAgrees(x, Apply(x, a, Look(ls[0], u)), Apply(x, b, Look(ls[0], u)), ls[1..], u, t);
    }
  }

  /** The same links are active. */
  lemma {:induction false} SameActive(x: Context, p: real, a: NetState, b: NetState, t: nat)
    requires NetInvariant.Inv(x, p, a) && NetInvariant.Inv(x, p, b) && Agree(a, b, t)
    ensures a.activeLinks == b.activeLinks
  {
    hide NetInvariant.LinksOk, NetInvariant.NodesOk, NetInvariant.OnNet, Refill;
    forall l | l in a.links
      ensures (Contents(a.links[l]) != []) == (Contents(b.links[l]) != [])
    {
      assert BehindLink(a.links[l], b.links[l], t);
    }
    assert forall l :: l in a.activeLinks <==> l in b.activeLinks;
  }

  /** With the same draws the loop of a node does the same in both, and ends in both or in neither. */
  lemma {:induction false} NodeAgrees(x: Context, p: real, a: NetState, b: NetState, n: NodeId, draws: seq<real>, now: Tick, t: nat)
    requires Wired(x.g) && ValidConfig(x.c) && n in x.g.nodes
    requires NetInvariant.Inv(x, p, a) && NetInvariant.Inv(x, p, b) && Agree(a, b, t)
    ensures Agree(NodeWork(x, a, n, draws, now), NodeWork(x, b, n, draws, now), t)
    ensures NodeEnds(x, a, n, draws, now) <==> NodeEnds(x, b, n, draws, now)
  {
    hide NetInvariant.Inv, Agree, Wired, Rounds, AskUntil, Opening, Among;
    SameActive(x, p, a, b, t);
    InLinksKnown(x, n, a.activeLinks);
    var active := Among(x.g.nodes[n].inLinks, a.activeLinks);
    var r := Opening(x, active);
    RoundsAgree(x, a, b, active, r, draws, now, t);
    AskAgrees(x, Rounds(x, a, active, r, draws, now).0, Rounds(x, b, active, r, draws, now).0, active, Next(now), t);
    forall k | 0 <= k < |draws|
      ensures Rounds(x, a, active, r, draws[..k], now).1 == Rounds(x, b, active, r, draws[..k], now).1
    {
      RoundsAgree(x, a, b, active, r, draws[..k], now, t);
    }
  }

  // ------------------------------------------------------------------ what the work of nodes keeps

  /** The invariant and the set of active nodes. */
  ghost predicate Kept(x: Context, p: real, a: NetState, b: NetState)
  {
    NetInvariant.Inv(x, p, b) && b.activeNodes == a.activeNodes && b.links.Keys == a.links.Keys
  }

  lemma {:induction false} ActionKeeps(x: Context, p: real, a: NetState, net: NetState, act: NetAction)
    requires Kept(x, p, a, net) && (act.Look? || act.Move?)
    ensures Kept(x, p, a, Apply(x, net, act))
  {
    hide NetInvariant.Inv, Apply;
    NetInvariant.ApplyKeepsInv(x, p, net, act);
    ActionLeaves(x, net, act);
  }

  lemma {:induction false} ActionLeaves(x: Context, net: NetState, act: NetAction)
    requires act.Look? || act.Move?
    ensures var r := Apply(x, net, act);
            r.activeNodes == net.activeNodes && r.links.Keys == net.links.Keys
  {
    hide TravelTicks;
    if act.Move? && ShouldMove(net, act.l, act.now) {
      MoveParts(net, act.l, act.now);
      hide MoveVehicle;
    }
  }

  lemma {:induction false} VisitsKept(x: Context, p: real, a: NetState, net: NetState, ls: seq<LinkId>, j: nat, r: Round, drawn: real, now: Tick)
    requires Kept(x, p, a, net) && AllKnown(x, ls) && j <= |ls| == |r.ex|
    ensures Kept(x, p, a, Visits(x, net, ls, j, r, drawn, now).0)
  {
    hide Kept, Apply, ShouldMove, CapOf;
    if j > 0 {
      VisitsKept(x, p, a, net, ls, j - 1, r, drawn, now);
      var s := Visits(x, net, ls, j - 1, r, drawn, now);
      ActionKeeps(x, p, a, s.0, Look(ls[j - 1], now));
      ActionKeeps(x, p, a, Apply(x, s.0, Look(ls[j - 1], now)), Move(ls[j - 1], now));
    }
  }

  lemma {:induction false} RoundsKept(x: Context, p: real, a: NetState, net: NetState, ls: seq<LinkId>, r: Round, draws: seq<real>, now: Tick)
    requires Kept(x, p, a, net) && AllKnown(x, ls) && |ls| == |r.ex|
    ensures Kept(x, p, a, Rounds(x, net, ls, r, draws, now).0)
    decreases |draws|
  {
    hide Kept, Visits, Share;
    if draws != [] {
      var k := |draws| - 1;
      RoundsKept(x, p, a, net, ls, r, draws[..k], now);
      var s := Rounds(x, net, ls, r, draws[..k], now);
      VisitsKept(x, p, a, s.0, ls, |ls|, s.1, Share(draws[k], s.1.avail), now);
    }
  }

  lemma {:induction false} AskKept(x: Context, p: real, a: NetState, net: NetState, ls: seq<LinkId>, t: Tick)
    requires Kept(x, p, a, net)
    ensures Kept(x, p, a, AskUntil(x, net, ls, t))
    decreases |ls|
  {
    hide Kept, Apply, OffersVeh;
    if ls != [] {
      ActionKeeps(x, p, a, net, Look(ls[0], t));
      AskKept(x, p, a, Apply(x, net, Look(ls[0], t)), ls[1..], t);
    }
  }

  lemma {:induction false} NodeKept(x: Context, p: real, a: NetState, net: NetState, n: NodeId, draws: seq<real>, now: Tick)
    requires Wired(x.g) && ValidConfig(x.c) && n in x.g.nodes && Kept(x, p, a, net)
    ensures Kept(x, p, a, NodeWork(x, net, n, draws, now))
  {
    hide Kept, Wired, Rounds, AskUntil, Opening, Among;
    InLinksKnown(x, n, net.activeLinks);
    var active := Among(x.g.nodes[n].inLinks, net.activeLinks);
    RoundsKept(x, p, a, net, active, Opening(x, active), draws, now);
    AskKept(x, p, a, Rounds(x, net, active, Opening(x, active), draws, now).0, active, Next(now));
  }

  // ------------------------------------------------------------------ all nodes there, the active ones here

  ghost predicate Mine(x: Context, n: NodeId)
  {
    n in x.g.nodes && x.g.nodes[n].part == x.part
  }

  /** A node that is not active leaves everything as it is, whatever it draws. */
  lemma {:induction false} InactiveNodeSkipped(x: Context, p: real, a: NetState, b: NetState, n: NodeId, draws: seq<real>, now: Tick, t: nat)
    requires Wired(x.g) && ValidConfig(x.c) && Mine(x, n)
    requires NetInvariant.Inv(x, p, a) && NetInvariant.Inv(x, p, b) && Agree(a, b, t) && n !in a.activeNodes
    ensures NodeWork(x, b, n, draws, now) == b
  {
    hide NetInvariant.Inv, Agree, Rounds, AskUntil, Opening, Among;
    InLinksKnown(x, n, b.activeLinks);
    var active := Among(x.g.nodes[n].inLinks, b.activeLinks);
    assert NodeWired(x.g, n);
    forall l | l in active
      ensures LeadsTo(x, l, n) && l in b.links && !b.links[l].Out?
    {
      InLinkHere(x, p, n, b, l);
    }
    InactiveNodeWorksInVain(x, p, a, b, t, n, active, Opening(x, active), draws, now);
  }

  /** The nodes work in the same order with the same draws, but here only the active ones do. */
  lemma {:induction false} NodesAgree(x: Context, p: real, a: NetState, b: NetState, order: seq<NodeId>, draws: map<NodeId, seq<real>>, now: Tick, t: nat)
    requires Wired(x.g) && ValidConfig(x.c) && (forall n :: n in order ==> n in x.g.nodes && n in draws) && forall n :: n in order ==> Mine(x, n)
    requires NetInvariant.Inv(x, p, a) && NetInvariant.Inv(x, p, b) && Agree(a, b, t)
    ensures var u, v := NodesWork(x, a, Among(order, a.activeNodes), draws, now), NodesWork(x, b, order, draws, now);
            Agree(u, v, t) && Kept(x, p, a, u) && Kept(x, p, b, v)
    ensures NodesEnd(x, b, order, draws, now) ==> NodesEnd(x, a, Among(order, a.activeNodes), draws, now)
  {
    hide NetInvariant.Inv, Agree, Wired, NodeWork, NodeEnds, Among;
    if order == [] {
      NoneAmong(a.activeNodes);
    } else {
      var front, n := order[..|order| - 1], order[|order| - 1];
      assert order == front + [n] && n in order && forall k :: k in front ==> k in order;
      NodesAgree(x, p, a, b, front, draws, now, t);
      AmongSnoc(front, n, a.activeNodes);
      var chosen := Among(front, a.activeNodes);
      var u, v := NodesWork(x, a, chosen, draws, now), NodesWork(x, b, front, draws, now);
      NodeKept(x, p, b, v, n, draws[n], now);
      if n in a.activeNodes {
        NodeAgrees(x, p, u, v, n, draws[n], now, t);
        NodeKept(x, p, a, u, n, draws[n], now);
        assert (chosen + [n])[..|chosen|] == chosen;
      } else {
        InactiveNodeSkipped(x, p, u, v, n, draws[n], now, t);
        assert chosen + [] == chosen;
      }
    }
  }

  lemma {:induction false} NoneAmong(s: set<NodeId>)
    ensures Among([], s) == []
  {
  }

  /** Putting nodes to rest that have no offer keeps the invariant. */
  lemma {:induction false} RestedOk(x: Context, p: real, net: NetState)
    requires NetInvariant.Inv(x, p, net)
    ensures NetInvariant.Inv(x, p, Rested(x, net)) && Rested(x, net).links == net.links && Rested(x, net).activeLinks == net.activeLinks
  {
    hide OffersVeh, Contents;
  }

  // ------------------------------------------------------------------ the steps of one tick

  /** The list names every element of the set, each once. */
  ghost predicate Lists(ls: seq<LinkId>, s: set<LinkId>)
  {
    NoDuplicates(ls) && forall l :: l in ls <==> l in s
  }

  ghost function Steps(ls: seq<LinkId>, now: Tick): (acts: seq<NetAction>)
    ensures |acts| == |ls| && forall i :: 0 <= i < |ls| ==> acts[i] == StepLink(ls[i], now)
  {
    seq(|ls|, i requires 0 <= i < |ls| => StepLink(ls[i], now))
  }

  ghost function Elements(ls: seq<LinkId>): (s: set<LinkId>)
    ensures forall l :: l in s <==> l in ls
  {
    set l | l in ls
  }

  /** In whatever order the links make their steps, each makes its own and no other. */
  lemma {:induction false} StepsAreExact(x: Context, p: real, net: NetState, ls: seq<LinkId>, now: Tick)
    requires NetInvariant.Inv(x, p, net) && NoDuplicates(ls) && forall l :: l in ls ==> l in net.links
    ensures Partition.SteppedExactly(net, Run(x, net, Steps(ls, now)), Elements(ls), now)
    ensures NetInvariant.Inv(x, p, Run(x, net, Steps(ls, now))) && Legal(x, net, Steps(ls, now))
  {
    hide NetInvariant.Inv, Run, Legal, Partition.SteppedExactly, Elements, Steps;
    if ls == [] {
      NoSteps(x, net, now);
    } else {
      var front, l := ls[..|ls| - 1], ls[|ls| - 1];
      assert forall k :: k in front ==> k in ls;
      LastStep(ls, now);
      StepsAreExact(x, p, net, front, now);
      OneMoreStep(x, p, net, Run(x, net, Steps(front, now)), front, l, now);
      RunSnoc(x, net, Steps(front, now), StepLink(l, now));
    }
  }

  lemma {:induction false} NoSteps(x: Context, net: NetState, now: Tick)
    ensures Run(x, net, Steps([], now)) == net && Legal(x, net, Steps([], now)) && Partition.SteppedExactly(net, net, Elements([]), now)
  {
    hide Partition.SteppedExactly;
    Partition.NothingStepped(net, now);
    assert Elements([]) == {};
  }

  lemma {:induction false} LastStep(ls: seq<LinkId>, now: Tick)
    requires ls != [] && NoDuplicates(ls)
    ensures var front, l := ls[..|ls| - 1], ls[|ls| - 1];
            && Steps(ls, now) == Steps(front, now) + [StepLink(l, now)]
            && l !in front && Elements(ls) == Elements(front) + {l} && NoDuplicates(front)
  {
    assert ls == ls[..|ls| - 1] + [ls[|ls| - 1]];
  }

  lemma {:induction false} OneMoreStep(x: Context, p: real, start: NetState, net: NetState, front: seq<LinkId>, l: LinkId, now: Tick)
    requires NetInvariant.Inv(x, p, net) && Partition.SteppedExactly(start, net, Elements(front), now) && l in start.links && l !in front
    ensures var r := Apply(x, net, StepLink(l, now));
            && Enabled(x, net, StepLink(l, now))
            && Partition.SteppedExactly(start, r, Elements(front) + {l}, now) && NetInvariant.Inv(x, p, r)
  {
    hide NetInvariant.Inv, Apply, Enabled, Partition.SteppedExactly, NetInvariant.Stepped, Elements;
    SteppedLinks(start, net, Elements(front), now);
    CanStep(x, p, net, l, now);
    Partition.StepLinkIs(x, net, l, now);
    Partition.SteppedMore(start, net, Apply(x, net, StepLink(l, now)), l, now, Elements(front));
    NetInvariant.ApplyKeepsInv(x, p, net, StepLink(l, now));
  }

  lemma {:induction false} SteppedLinks(a: NetState, b: NetState, done: set<LinkId>, now: Tick)
    requires Partition.SteppedExactly(a, b, done, now)
    ensures a.links.Keys == b.links.Keys
  {
  }

  lemma {:induction false} CanStep(x: Context, p: real, net: NetState, l: LinkId, now: Tick)
    requires NetInvariant.Inv(x, p, net) && l in net.links
    ensures Enabled(x, net, StepLink(l, now))
  {
    hide NetInvariant.OnNet, NetInvariant.NodesOk, NetInvariant.ActiveOk, NetInvariant.Placed, Pce;
    assert NetInvariant.LinkOk(x, p, l, net.links[l]);
  }

  // ------------------------------------------------------------------ whole runs

  /**
   * A tick: what comes onto the partition or is reported to it, then the nodes in some order, each
   * with its draws, and then the links, in some order of the active ones and in some order of all.
   */
  datatype FullTick = FullTick(
    first: seq<NetAction>, order: seq<NodeId>, draws: map<NodeId, seq<real>>, active: seq<LinkId>, all: seq<LinkId>, now: Tick)

  /** The order names all nodes of the partition, once each, and each has draws. */
  ghost predicate InOrder(x: Context, p: real, ticks: seq<FullTick>)
  {
    && Wired(x.g) && ValidConfig(x.c)
    && (forall i, j :: 0 <= i < j < |ticks| ==> ticks[i].now <= ticks[j].now)
    && (forall i :: 0 <= i < |ticks| ==> TickOk(x, p, ticks[i]))
  }

  ghost predicate TickOk(x: Context, p: real, tick: FullTick)
  {
    && (forall a :: a in tick.first ==> !a.StepLink? && NetInvariant.Sound(x, p, a))
    && NoDuplicates(tick.order) && (forall n :: n in tick.order <==> Mine(x, n)) && forall n :: n in tick.order ==> n in tick.draws
  }

  /** The state when the active nodes have worked and those without an offer rest. */
  ghost function ActiveWorked(x: Context, net: NetState, tick: FullTick): (r: NetState)
    requires Wired(x.g) && ValidConfig(x.c) && forall n :: n in tick.order ==> n in x.g.nodes && n in tick.draws
  {
    var begun := Run(x, net, tick.first);
    Rested(x, NodesWork(x, begun, Among(tick.order, begun.activeNodes), tick.draws, tick.now))
  }

  /** The state when every node has worked. */
  ghost function AllWorked(x: Context, net: NetState, tick: FullTick): (r: NetState)
    requires Wired(x.g) && ValidConfig(x.c) && forall n :: n in tick.order ==> n in x.g.nodes && n in tick.draws
  {
    NodesWork(x, Run(x, net, tick.first), tick.order, tick.draws, tick.now)
  }

  /** One tick that skips the nodes and links that are not active. */
  ghost predicate ActiveOnly(x: Context, p: real, a: NetState, b: NetState, tick: FullTick)
    requires Wired(x.g) && ValidConfig(x.c) && TickOk(x, p, tick)
  {
    var mid := ActiveWorked(x, a, tick);
    Lists(tick.active, mid.activeLinks) && b == Run(x, mid, Steps(tick.active, tick.now))
  }

  /** One tick in which every node works and every link makes its step. */
  ghost predicate Everything(x: Context, p: real, a: NetState, b: NetState, tick: FullTick)
    requires Wired(x.g) && ValidConfig(x.c) && TickOk(x, p, tick)
  {
    var mid := AllWorked(x, a, tick);
    Lists(tick.all, mid.links.Keys) && b == Run(x, mid, Steps(tick.all, tick.now))
  }

  /** The states before each tick and after the last one. */
  ghost predicate EventDriven(x: Context, p: real, states: seq<NetState>, ticks: seq<FullTick>)
    requires InOrder(x, p, ticks)
  {
    |states| == |ticks| + 1 && forall i :: 0 <= i < |ticks| ==> ActiveOnly(x, p, states[i], states[i + 1], ticks[i])
  }

  ghost predicate Exhaustive(x: Context, p: real, states: seq<NetState>, ticks: seq<FullTick>)
    requires InOrder(x, p, ticks)
  {
    |states| == |ticks| + 1 && forall i :: 0 <= i < |ticks| ==> Everything(x, p, states[i], states[i + 1], ticks[i])
  }

  /** The time of the last tick before index i. */
  ghost function Reached(x: Context, ticks: seq<FullTick>, i: nat): (t: nat)
    requires x.c.tps > 0 && i <= |ticks|
  {
    if i == 0 then 0 else TickNanos(x.c.tps, ticks[i - 1].now)
  }

  /** After the work of a tick every link yields the same in both, and nothing if it is not active. */
  ghost predicate SameOutputs(a: NetState, b: NetState, now: Tick)
  {
    && a.links.Keys == b.links.Keys
    && forall l :: l in b.links ==>
         && (!b.links[l].Out? ==> b.links[l].s.attr.tps > 0)
         && (!a.links[l].Out? ==> a.links[l].s.attr.tps > 0)
         && Output(b.links[l], now) == if l in a.activeLinks then Output(a.links[l], now) else ([], 0.0, false)
  }

  /** What agrees in one tick that starts in states a and b. */
  ghost predicate TickAgrees(x: Context, p: real, a: NetState, b: NetState, tick: FullTick)
    requires Wired(x.g) && ValidConfig(x.c) && TickOk(x, p, tick)
  {
    && Legal(x, a, tick.first) == Legal(x, b, tick.first)
    && (NodesEnd(x, Run(x, b, tick.first), tick.order, tick.draws, tick.now) ==>
          var begun := Run(x, a, tick.first);
          NodesEnd(x, begun, Among(tick.order, begun.activeNodes), tick.draws, tick.now))
    && SameOutputs(ActiveWorked(x, a, tick), AllWorked(x, b, tick), tick.now)
  }

  /**
   * From the same state, in every run and at every tick, the event-driven simulation agrees with
   * the one that lets every node work, with the same draws, and steps every link: the same may come
   * onto the partition, every node's loop ends with the same draws, and every link yields the same
   * vehicles, the same released storage and the same offers.
   */
  lemma {:induction false} NothingIsLost(x: Context, p: real, lazy: seq<NetState>, full: seq<NetState>, ticks: seq<FullTick>, i: nat)
    requires InOrder(x, p, ticks) && EventDriven(x, p, lazy, ticks) && Exhaustive(x, p, full, ticks)
    requires NetInvariant.Inv(x, p, lazy[0]) && full[0] == lazy[0] && i <= |ticks|
    ensures x.c.tps > 0 && Agree(lazy[i], full[i], Reached(x, ticks, i))
    ensures NetInvariant.Inv(x, p, lazy[i]) && NetInvariant.Inv(x, p, full[i])
    ensures i < |ticks| ==> TickAgrees(x, p, lazy[i], full[i], ticks[i])
  {
    hide TickAgrees, NetInvariant.Inv, Agree, TickNanos, TickOk, ActiveOnly, Everything, Wired;
    if i == 0 {
      AgreeAtStart(x, p, lazy[0]);
    } else {
      NothingIsLost(x, p, lazy, full, ticks, i - 1);
      OneTick(x, p, lazy, full, ticks, i - 1);
    }
    if i < |ticks| {
      OneTick(x, p, lazy, full, ticks, i);
    }
  }

  lemma {:induction false} AgreeAtStart(x: Context, p: real, net: NetState)
    requires NetInvariant.Inv(x, p, net)
    ensures x.c.tps > 0 && Agree(net, net, 0)
  {
  }

  lemma {:induction false} OneTick(x: Context, p: real, lazy: seq<NetState>, full: seq<NetState>, ticks: seq<FullTick>, i: nat)
    requires x.c.tps > 0 && InOrder(x, p, ticks) && EventDriven(x, p, lazy, ticks) && Exhaustive(x, p, full, ticks)
    requires i < |ticks| && Agree(lazy[i], full[i], Reached(x, ticks, i))
    requires NetInvariant.Inv(x, p, lazy[i]) && NetInvariant.Inv(x, p, full[i])
    ensures Agree(lazy[i + 1], full[i + 1], Reached(x, ticks, i + 1))
    ensures NetInvariant.Inv(x, p, lazy[i + 1]) && NetInvariant.Inv(x, p, full[i + 1])
    ensures TickAgrees(x, p, lazy[i], full[i], ticks[i])
  {
    hide TickAgrees, NetInvariant.Inv, Agree, TickNanos, TickOk, ActiveOnly, Everything, Wired;
    if i > 0 {
      Clock.Monotone(x.c.tps, ticks[i - 1].now, ticks[i].now);
    }
    TickInBoth(x, p, lazy[i], lazy[i + 1], full[i], full[i + 1], ticks[i], Reached(x, ticks, i));
  }

  /** The state after the nodes' work, in both. */
  lemma {:induction false} WorkedInBoth(x: Context, p: real, a: NetState, b: NetState, tick: FullTick, t: nat)
    requires Wired(x.g) && ValidConfig(x.c) && TickOk(x, p, tick)
    requires NetInvariant.Inv(x, p, a) && NetInvariant.Inv(x, p, b) && Agree(a, b, t)
    ensures var am, bm := ActiveWorked(x, a, tick), AllWorked(x, b, tick);
            NetInvariant.Inv(x, p, am) && NetInvariant.Inv(x, p, bm) && Agree(am, bm, t)
    ensures Legal(x, a, tick.first) == Legal(x, b, tick.first)
    ensures NodesEnd(x, Run(x, b, tick.first), tick.order, tick.draws, tick.now) ==>
              var begun := Run(x, a, tick.first);
              NodesEnd(x, begun, Among(tick.order, begun.activeNodes), tick.draws, tick.now)
  {
    hide NetInvariant.Inv, BehindLink, Wired, Run, Legal, NodesWork, NodesEnd, Among, Rested, NetInvariant.Sound;
    WorkAgrees(x, a, b, tick.first, t);
    NetInvariant.RunKeepsInv(x, p, a, tick.first);
    NetInvariant.RunKeepsInv(x, p, b, tick.first);
    var begun := Run(x, a, tick.first);
    NodesAgree(x, p, begun, Run(x, b, tick.first), tick.order, tick.draws, tick.now, t);
    RestedOk(x, p, NodesWork(x, begun, Among(tick.order, begun.activeNodes), tick.draws, tick.now));
  }

  lemma {:induction false} TickInBoth(x: Context, p: real, a: NetState, a1: NetState, b: NetState, b1: NetState, tick: FullTick, t: nat)
    requires Wired(x.g) && ValidConfig(x.c) && TickOk(x, p, tick) && ActiveOnly(x, p, a, a1, tick) && Everything(x, p, b, b1, tick)
    requires NetInvariant.Inv(x, p, a) && NetInvariant.Inv(x, p, b) && Agree(a, b, t) && t <= TickNanos(x.c.tps, tick.now)
    ensures Agree(a1, b1, TickNanos(x.c.tps, tick.now)) && NetInvariant.Inv(x, p, a1) && NetInvariant.Inv(x, p, b1)
    ensures TickAgrees(x, p, a, b, tick)
  {
    hide Run, Legal, Output, NetInvariant.Inv, Partition.SteppedExactly, Agree, TickNanos, NoDuplicates, Elements, ActiveWorked, AllWorked, NetInvariant.Sound;
    hide NodesEnd, Among, Wired;
    WorkedInBoth(x, p, a, b, tick, t);
    var am, bm := ActiveWorked(x, a, tick), AllWorked(x, b, tick);
    ActiveAreLinks(x, p, am);
    StepsAreExact(x, p, am, tick.active, tick.now);
    StepsAreExact(x, p, bm, tick.all, tick.now);
    ListedElements(tick.active, am.activeLinks);
    ListedElements(tick.all, bm.links.Keys);
    StepsAgree(x, p, am, bm, a1, b1, t, tick.now);
    AgreeKeys(am, bm, t);
  }

  lemma {:induction false} ListedElements(ls: seq<LinkId>, s: set<LinkId>)
    requires Lists(ls, s)
    ensures Elements(ls) == s
  {
  }

  lemma {:induction false} AgreeKeys(a: NetState, b: NetState, t: nat)
    requires Agree(a, b, t)
    ensures a.links.Keys == b.links.Keys
  {
  }

  lemma {:induction false} ActiveAreLinks(x: Context, p: real, net: NetState)
    requires NetInvariant.Inv(x, p, net)
    ensures forall l :: l in net.activeLinks ==> l in net.links
  {
  }
}
