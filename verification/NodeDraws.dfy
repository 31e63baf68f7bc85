/**
 * What a node does with its draws: which of its links releases a vehicle first, and which vehicles
 * may leave at all, in terms of capacities, storage and waiting times.
 */
module NodeDraws {
  import opened Basics
  import opened FlowCap
  import opened Storage
  import opened StuckTimers
  import opened LinkSpec
  import opened RoadNetwork
  import opened Links
  import opened NetSpec
  import opened NodeMoves
  import opened NodeLoop
  import NetInvariant

  // ------------------------------------------------------------------ who may leave

  /** The link has a vehicle in its buffer and flow capacity for it. */
  predicate HasOffer(net: NetState, l: LinkId)
  {
    l in net.links && !net.links[l].Out? && net.links[l].s.buffer != [] && net.links[l].s.flow.remaining > 0.0000000001
  }

  /** The tick since which the head of the buffer has been offered, if it is offered now. */
  function Since(s: LinkState, now: Tick): (t: Tick)
  {
    if s.timer.Some? then s.timer.value else now
  }

  /**
   * The head of link l's buffer may leave in tick now: it has been offered for as many ticks as the
   * threshold says, or the storage in use on the next link of its route is below the maximum.
   */
  predicate MayLeave(net: NetState, l: LinkId, now: Tick)
  {
    && HasOffer(net, l)
    && var s := net.links[l].s;
       var v := s.buffer[0];
       && v.pos + 1 < |v.route| && v.route[v.pos + 1] in net.links
       && (Since(s, now) + s.attr.threshold <= now || Space(net.links[v.route[v.pos + 1]]))
  }

  predicate Space(sl: SimLinkState)
  {
    if sl.Out? then sl.o.storage.used < sl.o.storage.max else sl.s.storage.used < sl.s.storage.max
  }

  /** Asked for its offer, a link moves it exactly if it may leave. */
  lemma {:induction false} MovesExactlyIfMayLeave(x: Context, p: real, net: NetState, l: LinkId, now: Tick)
    requires NetInvariant.Inv(x, p, net) && l in net.links && !net.links[l].Out?
    requires net.links[l].s.timer.Some? ==> net.links[l].s.timer.value <= now
    ensures ShouldMove(Apply(x, net, Look(l, now)), l, now) <==> MayLeave(net, l, now)
  {
    hide NetInvariant.Inv;
    if OffersVeh(net.links[l]) {
      Movable(x, p, net, l);
    }
  }

  lemma {:induction false} Movable(x: Context, p: real, net: NetState, l: LinkId)
    requires NetInvariant.Inv(x, p, net) && l in net.links && OffersVeh(net.links[l])
    ensures MoveIsDefined(net, l)
  {
    hide NetInvariant.OnNet, NetInvariant.ActiveOk, NetInvariant.NodesOk, NetInvariant.LinksOk, MoveIsDefined;
    NetInvariant.OfferIsMovable(x, p, net, l);
  }

  /** The step of a link in tick now starts the timer of what it offers from then on at the next tick, the first in which a node can look. */
  lemma {:induction false} OfferedFromNextTick(x: Context, net: NetState, l: LinkId, now: Tick)
    requires Enabled(x, net, StepLink(l, now)) && !net.links[l].Out?
    ensures var after := Apply(x, net, StepLink(l, now));
            after.links[l].s.timer == if net.links[l].s.timer.None? && HasOffer(after, l) then Some(if now < U64_MAX then now + 1 else U64_MAX)
                                      else net.links[l].s.timer
  {
    hide SimStep;
    SimStepShape(net.links[l].s, now);
  }

  /**
   * In every run: once the head of a link's buffer has been offered for the threshold of ticks, it
   * may move, whether there is space or not.
   */
  lemma {:induction false} StuckMayMove(x: Context, p: real, acts: seq<NetAction>, l: LinkId, t: Tick, now: Tick)
    requires ValidContext(x) && p > 0.0 && forall k :: k in x.g.links ==> x.g.links[k].capacity >= 0.0
    requires forall a :: a in acts ==> NetInvariant.Sound(x, p, a)
    requires var net := Run(x, FromNetwork(x), acts);
             HasOffer(net, l) && net.links[l].s.timer == Some(t) && t + net.links[l].s.attr.threshold <= now
    ensures ShouldMove(Run(x, FromNetwork(x), acts), l, now)
  {
    hide FromNetwork, Run, NetInvariant.Inv, NetInvariant.Sound, MoveIsDefined;
    NetInvariant.InitialInv(x, p);
    NetInvariant.RunKeepsInv(x, p, FromNetwork(x), acts);
    Movable(x, p, Run(x, FromNetwork(x), acts), l);
  }

  /**
   * What a node leaves behind: if none of the vehicles buffered on its in-links was smaller than the
   * nudges of one round, an offer that is still there has not been offered for the threshold of
   * ticks, and its next link is full.
   */
  lemma {:induction false} LeftBehindMustWait(x: Context, p: real, start: NetState, net: NetState, l: LinkId, ls: seq<LinkId>, now: Tick)
    requires NetInvariant.Inv(x, p, net) && Settled(start, net, l, ls, now) && HasOffer(net, l)
    requires forall k, v :: k in ls && k in start.links && !start.links[k].Out? && v in start.links[k].s.buffer ==>
               v.pce >= if ls == [] then 0.0 else 0.000001 * (|ls| - 1) as real
    ensures var s := net.links[l].s;
            && s.timer.Some? && s.timer.value <= now < s.timer.value + s.attr.threshold
            && s.buffer[0].pos + 1 < |s.buffer[0].route| && s.buffer[0].route[s.buffer[0].pos + 1] in net.links
            && !Space(net.links[s.buffer[0].route[s.buffer[0].pos + 1]])
  {
    hide NetInvariant.Inv;
    assert AtLeast(start, ls, NudgesPerRound(|ls|));
    Movable(x, p, net, l);
  }

  // ------------------------------------------------------------------ the actions of the loop

  ghost function VisitActs(x: Context, net: NetState, ls: seq<LinkId>, i: nat, r: Round, drawn: real, now: Tick): (acts: seq<NetAction>)
    requires AllKnown(x, ls) && i < |ls| == |r.ex|
  {
    if r.ex[i] then []
    else if ShouldMove(Apply(x, net, Look(ls[i], now)), ls[i], now) && r.sel + CapOf(x, ls[i]) >= drawn then
      [Look(ls[i], now), Move(ls[i], now)]
    else [Look(ls[i], now)]
  }

  ghost function VisitsActs(x: Context, net: NetState, ls: seq<LinkId>, n: nat, r: Round, drawn: real, now: Tick): (acts: seq<NetAction>)
    requires AllKnown(x, ls) && n <= |ls| == |r.ex|
  {
    if n == 0 then []
    else
      var s := Visits(x, net, ls, n - 1, r, drawn, now);
      VisitsActs(x, net, ls, n - 1, r, drawn, now) + VisitActs(x, s.0, ls, n - 1, s.1, drawn, now)
  }

  ghost function RoundsActs(x: Context, net: NetState, ls: seq<LinkId>, r: Round, draws: seq<real>, now: Tick): (acts: seq<NetAction>)
    requires AllKnown(x, ls) && |ls| == |r.ex|
  {
    if draws == [] then []
    else
      var n := |draws| - 1;
      var s := Rounds(x, net, ls, r, draws[..n], now);
      RoundsActs(x, net, ls, r, draws[..n], now) + VisitsActs(x, s.0, ls, |ls|, s.1, Share(draws[n], s.1.avail), now)
  }

  lemma {:induction false} NoActs(x: Context, net: NetState, ls: seq<LinkId>, r: Round, now: Tick)
    requires AllKnown(x, ls) && |ls| == |r.ex|
    ensures RoundsActs(x, net, ls, r, [], now) == [] && forall drawn :: VisitsActs(x, net, ls, 0, r, drawn, now) == []
  {
  }

  lemma {:induction false} OneMoreRoundActs(x: Context, net: NetState, ls: seq<LinkId>, r: Round, draws: seq<real>, draw: real, now: Tick)
    requires AllKnown(x, ls) && |ls| == |r.ex|
    ensures var s := Rounds(x, net, ls, r, draws, now);
            RoundsActs(x, net, ls, r, draws + [draw], now) ==
              RoundsActs(x, net, ls, r, draws, now) + VisitsActs(x, s.0, ls, |ls|, s.1, Share(draw, s.1.avail), now)
  {
    hide Rounds, VisitsActs, Share;
    assert (draws + [draw])[..|draws|] == draws;
  }

  /** The actions of the next visit, by whether the link is exhausted and whether it may release a vehicle. */
  lemma {:induction false} NextVisitActs(x: Context, first: NetState, net: NetState, ls: seq<LinkId>, i: nat, before: Round, r: Round, drawn: real, now: Tick)
    requires AllKnown(x, ls) && i < |ls| == |before.ex| == |r.ex| && (net, r) == Visits(x, first, ls, i, before, drawn, now)
    ensures var acts, more := VisitsActs(x, first, ls, i, before, drawn, now), VisitsActs(x, first, ls, i + 1, before, drawn, now);
            var should := ShouldMove(Apply(x, net, Look(ls[i], now)), ls[i], now);
            && (r.ex[i] ==> more == acts)
            && (!r.ex[i] && should && r.sel + CapOf(x, ls[i]) >= drawn ==> more == acts + [Look(ls[i], now), Move(ls[i], now)])
            && (!r.ex[i] && !(should && r.sel + CapOf(x, ls[i]) >= drawn) ==> more == acts + [Look(ls[i], now)])
  {
    hide CapOf, ShouldMove, Apply, Visits;
    var acts := VisitsActs(x, first, ls, i, before, drawn, now);
    assert acts + [] == acts;
  }

  // ------------------------------------------------------------------ the loop in progress

  /** In a round: the first i links were visited, from state first and round before to net and r. */
  ghost predicate InRound(x: Context, first: NetState, net: NetState, ls: seq<LinkId>, i: nat, before: Round, r: Round, drawn: real, now: Tick,
                          acts0: seq<NetAction>, acts: seq<NetAction>)
  {
    && AllKnown(x, ls) && i <= |ls| == |before.ex|
    && (net, r) == Visits(x, first, ls, i, before, drawn, now) && acts == acts0 + VisitsActs(x, first, ls, i, before, drawn, now)
  }

  lemma {:induction false} RoundBegins(x: Context, first: NetState, ls: seq<LinkId>, before: Round, drawn: real, now: Tick, acts0: seq<NetAction>)
    requires AllKnown(x, ls) && |ls| == |before.ex|
    ensures InRound(x, first, first, ls, 0, before, before, drawn, now, acts0, acts0)
  {
    assert acts0 + [] == acts0;
  }

  lemma {:induction false} ExhaustedVisited(x: Context, first: NetState, net: NetState, ls: seq<LinkId>, i: nat, before: Round, r: Round, drawn: real,
                                            now: Tick, acts0: seq<NetAction>, acts: seq<NetAction>)
    requires InRound(x, first, net, ls, i, before, r, drawn, now, acts0, acts) && i < |ls| == |r.ex| && r.ex[i]
    ensures InRound(x, first, net, ls, i + 1, before, r.(avail := r.avail - 0.000001), drawn, now, acts0, acts)
  {
    hide Visits, VisitsActs, CapOf, Apply, ShouldMove;
    NextVisit(x, first, net, ls, i, before, r, drawn, now);
    NextVisitActs(x, first, net, ls, i, before, r, drawn, now);
  }

  lemma {:induction false} OpenVisited(x: Context, first: NetState, a: NetState, b: NetState, ls: seq<LinkId>, i: nat, before: Round, r: Round, s: Round,
                                       drawn: real, now: Tick, acts0: seq<NetAction>, acts1: seq<NetAction>, acts2: seq<NetAction>)
    requires InRound(x, first, a, ls, i, before, r, drawn, now, acts0, acts1) && i < |ls| == |r.ex| && !r.ex[i]
    requires var looked, cap := Apply(x, a, Look(ls[i], now)), CapOf(x, ls[i]);
             var should := ShouldMove(looked, ls[i], now);
             var moved := should && r.sel + cap >= drawn;
             && b == (if moved then Apply(x, looked, Move(ls[i], now)) else looked)
             && s == (if should then r.(sel := r.sel + cap) else r.(avail := r.avail - cap, ex := r.ex[i := true]))
             && acts2 == acts1 + (if moved then [Look(ls[i], now), Move(ls[i], now)] else [Look(ls[i], now)])
    ensures InRound(x, first, b, ls, i + 1, before, s, drawn, now, acts0, acts2)
  {
    hide Visits, VisitsActs, CapOf, Apply, ShouldMove;
    NextVisit(x, first, a, ls, i, before, r, drawn, now);
    NextVisitActs(x, first, a, ls, i, before, r, drawn, now);
  }

  lemma {:induction false} RoundEnds(x: Context, first: NetState, net: NetState, ls: seq<LinkId>, before: Round, r: Round, drawn: real, now: Tick,
                                     acts0: seq<NetAction>, acts: seq<NetAction>)
    requires InRound(x, first, net, ls, |ls|, before, r, drawn, now, acts0, acts)
    ensures AllKnown(x, ls) && |ls| == |before.ex| && (net, r) == Visits(x, first, ls, |ls|, before, drawn, now)
    ensures acts == acts0 + VisitsActs(x, first, ls, |ls|, before, drawn, now)
  {
  }

  /** Between two rounds. */
  ghost predicate Looping(x: Context, p: real, n: NodeId, start: NetState, net: NetState, ls: seq<LinkId>, r: Round, nudges: nat,
                          acts: seq<NetAction>, draws: seq<real>, now: Tick)
  {
    && AllKnown(x, ls) && (forall l :: l in ls ==> l in x.g.links)
    && NodeRun(x, p, n, now, start, net, acts) && TimersAt(x, n, net, now)
    && RoundOk(x, net, ls, Caps(x, ls), r, nudges, now) && SameExits(start, net, ls)
    && GoesOn(x, start, ls, Opening(x, ls), draws, now)
    && (net, r) == Rounds(x, start, ls, Opening(x, ls), draws, now) && acts == RoundsActs(x, start, ls, Opening(x, ls), draws, now)
  }

  lemma {:induction false} LoopBegins(x: Context, p: real, n: NodeId, start: NetState, ls: seq<LinkId>, now: Tick)
    requires AtNode(x, p, n, start, ls, now) && AllKnown(x, ls) && forall l :: l in ls ==> l in x.g.links
    ensures Looping(x, p, n, start, start, ls, Opening(x, ls), 0, [], [], now)
  {
    hide NetInvariant.Inv, CapOf, OpenCap, Blocked, OnlyAt, Legal, Run;
    FirstRound(x, start, ls, now);
    NodeRunStart(x, p, n, now, start);
    SameExitsRefl(start, ls);
    NoRounds(x, start, ls, Opening(x, ls), now);
    NoActs(x, start, ls, Opening(x, ls), now);
  }

  lemma {:induction false} LoopGoesOn(x: Context, p: real, n: NodeId, start: NetState, a: NetState, b: NetState, ls: seq<LinkId>, r: Round, s: Round,
                                      nudges: nat, nudges2: nat, acts: seq<NetAction>, acts2: seq<NetAction>, draws: seq<real>, draw: real, now: Tick)
    requires Looping(x, p, n, start, a, ls, r, nudges, acts, draws, now) && 0.0 <= draw < 1.0 && r.avail > 0.0000000001 && |ls| == |r.ex|
    requires NodeRun(x, p, n, now, start, b, acts2) && TimersAt(x, n, b, now)
    requires RoundOk(x, b, ls, Caps(x, ls), s, nudges2, now) && SameExits(a, b, ls)
    requires (b, s) == Visits(x, a, ls, |ls|, r, Share(draw, r.avail), now)
    requires acts2 == acts + VisitsActs(x, a, ls, |ls|, r, Share(draw, r.avail), now)
    ensures Looping(x, p, n, start, b, ls, s, nudges2, acts2, draws + [draw], now)
  {
    hide NodeRun, TimersAt, RoundOk, SameExits, Rounds, RoundsActs, Visits, VisitsActs, GoesOn, Share, CapOf, Opening;
    OneMoreRound(x, start, ls, Opening(x, ls), draws, draw, now);
    OneMoreRoundActs(x, start, ls, Opening(x, ls), draws, draw, now);
    SameExitsChain(start, a, b, ls);
  }

  lemma {:induction false} LoopParts(x: Context, p: real, n: NodeId, start: NetState, net: NetState, ls: seq<LinkId>, r: Round, nudges: nat,
                                     acts: seq<NetAction>, draws: seq<real>, now: Tick)
    requires Looping(x, p, n, start, net, ls, r, nudges, acts, draws, now)
    ensures AllKnown(x, ls) && (forall l :: l in ls ==> l in x.g.links) && |ls| == |r.ex|
    ensures NodeRun(x, p, n, now, start, net, acts) && TimersAt(x, n, net, now)
    ensures RoundOk(x, net, ls, Caps(x, ls), r, nudges, now) && SameExits(start, net, ls)
  {
    hide NodeRun, TimersAt, SameExits, Rounds, RoundsActs, GoesOn, CapOf, Opening, OpenCap, Blocked;
  }

  /** The loop has ended: what it did, and what it left. */
  lemma {:induction false} LoopEnds(x: Context, p: real, n: NodeId, start: NetState, net: NetState, ls: seq<LinkId>, r: Round, nudges: nat,
                                    acts: seq<NetAction>, more: seq<NetAction>, draws: seq<real>, now: Tick)
    requires Looping(x, p, n, start, net, ls, r, nudges, acts, draws, now) && AtNode(x, p, n, start, ls, now) && r.avail <= 0.0000000001
    requires forall l :: l in x.g.links ==> x.g.links[l].capacity >= 0.0
    ensures AllKnown(x, ls) && forall l :: l in ls ==> l in x.g.links
    ensures EndsWith(x, start, ls, Opening(x, ls), draws, now) && net == Rounds(x, start, ls, Opening(x, ls), draws, now).0
    ensures draws != [] ==> FirstByCapacity(x, start, ls, draws[0], acts + more, now)
  {
    hide NodeRun, TimersAt, RoundOk, SameExits, Rounds, RoundsActs, GoesOn, CapOf, Opening, FirstByCapacity, AtNode;
    if draws != [] {
      LoopIsByCapacity(x, p, n, start, ls, draws, more, now);
    }
  }

  // ------------------------------------------------------------------ which link releases first

  /** The capacities of the first j links. */
  ghost function SumTo(x: Context, ls: seq<LinkId>, j: nat): (r: real)
    requires AllKnown(x, ls) && j <= |ls|
  {
    if j == 0 then 0.0 else SumTo(x, ls, j - 1) + CapOf(x, ls[j - 1])
  }

  function Looks(ls: seq<LinkId>, now: Tick): (acts: seq<NetAction>)
    ensures |acts| == |ls| && forall i :: 0 <= i < |ls| ==> acts[i] == Look(ls[i], now)
  {
    seq(|ls|, i requires 0 <= i < |ls| => Look(ls[i], now))
  }

  /** Link i is the one at which the capacities, added up, reach the share d of all of them. */
  ghost predicate Reaches(x: Context, ls: seq<LinkId>, d: real, i: nat)
    requires AllKnown(x, ls)
  {
    && i < |ls|
    && (i > 0 ==> SumTo(x, ls, i) < d * SumTo(x, ls, |ls|))
    && d * SumTo(x, ls, |ls|) <= SumTo(x, ls, i + 1)
  }

  /**
   * With the first draw d, if the links up to that one all have a vehicle that may leave, they are
   * only looked at, and that link is the first to release its vehicle.
   */
  ghost predicate FirstByCapacity(x: Context, net: NetState, ls: seq<LinkId>, d: real, acts: seq<NetAction>, now: Tick)
    requires AllKnown(x, ls)
  {
    forall i: nat :: Reaches(x, ls, d, i) && (forall k :: 0 <= k <= i ==> MayLeave(net, ls[k], now)) ==>
      Looks(ls[..i + 1], now) + [Move(ls[i], now)] <= acts
  }

  lemma {:induction false} SumIsOpen(x: Context, ls: seq<LinkId>, j: nat)
    requires AllKnown(x, ls) && j <= |ls| && forall l :: l in ls ==> l in x.g.links
    ensures OpenCap(Caps(x, ls), NoneExhausted(|ls|), j) == SumTo(x, ls, j)
  {
    hide CapOf;
    if j > 0 {
      SumIsOpen(x, ls, j - 1);
    }
  }

  lemma {:induction false} SumGrows(x: Context, ls: seq<LinkId>, i: nat, j: nat)
    requires AllKnown(x, ls) && i <= j <= |ls| && forall k :: 0 <= k < |ls| ==> CapOf(x, ls[k]) >= 0.0
    ensures SumTo(x, ls, i) <= SumTo(x, ls, j)
  {
    hide CapOf;
    if i < j {
      SumGrows(x, ls, i, j - 1);
    }
  }

  /** Asking one link changes nothing about whether another one may release its vehicle. */
  lemma {:induction false} LookKeepsMayLeave(x: Context, net: NetState, m: LinkId, l: LinkId, now: Tick)
    requires m != l && m in net.links && !net.links[m].Out?
    ensures MayLeave(Apply(x, net, Look(m, now)), l, now) == MayLeave(net, l, now)
  {
  }

  /** The first j links, none of which reaches the draw: they are looked at, and their capacities add up. */
  ghost predicate OnlyLooked(x: Context, p: real, n: NodeId, net: NetState, ls: seq<LinkId>, j: nat, i: nat, drawn: real, now: Tick)
    requires AllKnown(x, ls) && j <= |ls| && forall l :: l in ls ==> l in x.g.links
  {
    var s := Visits(x, net, ls, j, Opening(x, ls), drawn, now);
    && AtNode(x, p, n, s.0, ls, now) && (forall k :: j <= k <= i && k < |ls| ==> MayLeave(s.0, ls[k], now))
    && s.1 == Opening(x, ls).(sel := SumTo(x, ls, j))
    && VisitsActs(x, net, ls, j, Opening(x, ls), drawn, now) == Looks(ls[..j], now)
  }

  lemma {:induction false} NothingLooked(x: Context, p: real, n: NodeId, net: NetState, ls: seq<LinkId>, i: nat, drawn: real, now: Tick)
    requires AtNode(x, p, n, net, ls, now) && AllKnown(x, ls) && i < |ls| && forall k :: 0 <= k <= i ==> MayLeave(net, ls[k], now)
    ensures forall l :: l in ls ==> l in x.g.links
    ensures OnlyLooked(x, p, n, net, ls, 0, i, drawn, now)
  {
    hide AtNode, MayLeave, CapOf;
    assert ls[..0] == [];
  }

  lemma {:induction false} LooksUntil(x: Context, p: real, n: NodeId, net: NetState, ls: seq<LinkId>, j: nat, i: nat, drawn: real, now: Tick)
    requires AtNode(x, p, n, net, ls, now) && AllKnown(x, ls) && j <= i < |ls| && forall l :: l in ls ==> l in x.g.links
    requires forall k :: 0 <= k <= i ==> MayLeave(net, ls[k], now)
    requires forall k :: 0 < k <= i ==> SumTo(x, ls, k) < drawn
    ensures OnlyLooked(x, p, n, net, ls, j, i, drawn, now)
  {
    hide OnlyLooked, AtNode, MayLeave, Visits;
    if j == 0 {
      NothingLooked(x, p, n, net, ls, i, drawn, now);
    } else {
      LooksUntil(x, p, n, net, ls, j - 1, i, drawn, now);
      OneMoreLooked(x, p, n, net, ls, j - 1, i, drawn, now);
    }
  }

  lemma {:induction false} OneMoreLooked(x: Context, p: real, n: NodeId, net: NetState, ls: seq<LinkId>, j: nat, i: nat, drawn: real, now: Tick)
    requires AllKnown(x, ls) && j < i < |ls| && forall l :: l in ls ==> l in x.g.links
    requires OnlyLooked(x, p, n, net, ls, j, i, drawn, now) && SumTo(x, ls, j + 1) < drawn
    ensures OnlyLooked(x, p, n, net, ls, j + 1, i, drawn, now)
  {
    hide AtNode, MayLeave, Visits, VisitsActs, CapOf, Apply, ShouldMove, Opening;
    var s := Visits(x, net, ls, j, Opening(x, ls), drawn, now);
    NoneExhaustedYet(x, ls, j);
    MayMoveNow(x, p, n, s.0, ls, j, now);
    NextVisit(x, net, s.0, ls, j, Opening(x, ls), s.1, drawn, now);
    NextVisitActs(x, net, s.0, ls, j, Opening(x, ls), s.1, drawn, now);
    LookStays(x, p, n, s.0, ls, j, i, now);
    assert ls[..j + 1] == ls[..j] + [ls[j]];
    assert Looks(ls[..j + 1], now) == Looks(ls[..j], now) + [Look(ls[j], now)];
  }

  lemma {:induction false} NoneExhaustedYet(x: Context, ls: seq<LinkId>, j: nat)
    requires AllKnown(x, ls) && j < |ls| && forall l :: l in ls ==> l in x.g.links
    ensures !Opening(x, ls).ex[j]
  {
  }

  lemma {:induction false} MayMoveNow(x: Context, p: real, n: NodeId, net: NetState, ls: seq<LinkId>, j: nat, now: Tick)
    requires AtNode(x, p, n, net, ls, now) && j < |ls| && MayLeave(net, ls[j], now)
    ensures ShouldMove(Apply(x, net, Look(ls[j], now)), ls[j], now)
  {
    hide MayLeave, ShouldMove, Apply, NetInvariant.Inv;
    QueuesHere(x, p, n, net, ls, now);
    assert ls[j] in ls;
    MovesExactlyIfMayLeave(x, p, net, ls[j], now);
  }

  lemma {:induction false} LookStays(x: Context, p: real, n: NodeId, net: NetState, ls: seq<LinkId>, j: nat, i: nat, now: Tick)
    requires AtNode(x, p, n, net, ls, now) && j < i < |ls| && forall k :: j <= k <= i ==> MayLeave(net, ls[k], now)
    ensures var r := Apply(x, net, Look(ls[j], now));
            AtNode(x, p, n, r, ls, now) && forall k :: j < k <= i ==> MayLeave(r, ls[k], now)
  {
    hide MayLeave, Apply, Blocked, ShouldMove;
    LookKeeps(x, p, n, net, ls, j, NoneExhausted(|ls|), now);
    QueuesHere(x, p, n, net, ls, now);
    assert ls[j] in ls;
    forall k | j < k <= i
      ensures MayLeave(Apply(x, net, Look(ls[j], now)), ls[k], now)
    {
      assert ls[k] != ls[j];
      LookKeepsMayLeave(x, net, ls[j], ls[k], now);
    }
  }

  /** The link that reaches the draw releases its vehicle. */
  lemma {:induction false} FirstRelease(x: Context, p: real, n: NodeId, net: NetState, ls: seq<LinkId>, i: nat, drawn: real, now: Tick)
    requires AtNode(x, p, n, net, ls, now) && AllKnown(x, ls) && i < |ls| && forall l :: l in ls ==> l in x.g.links
    requires forall k :: 0 <= k <= i ==> MayLeave(net, ls[k], now)
    requires (forall k :: 0 < k <= i ==> SumTo(x, ls, k) < drawn) && drawn <= SumTo(x, ls, i + 1)
    ensures VisitsActs(x, net, ls, i + 1, Opening(x, ls), drawn, now) == Looks(ls[..i + 1], now) + [Move(ls[i], now)]
  {
    hide AtNode, MayLeave, Visits, VisitsActs, CapOf, Apply, ShouldMove, Opening;
    LooksUntil(x, p, n, net, ls, i, i, drawn, now);
    var s := Visits(x, net, ls, i, Opening(x, ls), drawn, now);
    NoneExhaustedYet(x, ls, i);
    MayMoveNow(x, p, n, s.0, ls, i, now);
    NextVisitActs(x, net, s.0, ls, i, Opening(x, ls), s.1, drawn, now);
    assert ls[..i + 1] == ls[..i] + [ls[i]];
    assert Looks(ls[..i + 1], now) == Looks(ls[..i], now) + [Look(ls[i], now)];
  }

  lemma {:induction false} VisitsActsPrefix(x: Context, net: NetState, ls: seq<LinkId>, j: nat, k: nat, r: Round, drawn: real, now: Tick)
    requires AllKnown(x, ls) && j <= k <= |ls| == |r.ex|
    ensures VisitsActs(x, net, ls, j, r, drawn, now) <= VisitsActs(x, net, ls, k, r, drawn, now)
  {
    hide Visits, VisitActs;
    if j < k {
      VisitsActsPrefix(x, net, ls, j, k - 1, r, drawn, now);
    }
  }

  lemma {:induction false} FirstRoundFirst(x: Context, net: NetState, ls: seq<LinkId>, r: Round, draws: seq<real>, now: Tick)
    requires AllKnown(x, ls) && |ls| == |r.ex| && draws != []
    ensures VisitsActs(x, net, ls, |ls|, r, Share(draws[0], r.avail), now) <= RoundsActs(x, net, ls, r, draws, now)
    decreases |draws|
  {
    hide VisitsActs, Visits, Share;
    var k := |draws| - 1;
    if k == 0 {
      assert draws[..0] == [];
      NoActs(x, net, ls, r, now);
      NoRounds(x, net, ls, r, now);
      assert [] + VisitsActs(x, net, ls, |ls|, r, Share(draws[0], r.avail), now) == VisitsActs(x, net, ls, |ls|, r, Share(draws[0], r.avail), now);
    } else {
      FirstRoundFirst(x, net, ls, r, draws[..k], now);
    }
  }

  /** The loop releases first where the capacities, added up, reach the share of them that is drawn. */
  lemma {:induction false} LoopIsByCapacity(x: Context, p: real, n: NodeId, net: NetState, ls: seq<LinkId>, draws: seq<real>, more: seq<NetAction>, now: Tick)
    requires AtNode(x, p, n, net, ls, now) && AllKnown(x, ls) && draws != []
    requires forall l :: l in x.g.links ==> x.g.links[l].capacity >= 0.0
    ensures forall l :: l in ls ==> l in x.g.links
    ensures FirstByCapacity(x, net, ls, draws[0], RoundsActs(x, net, ls, Opening(x, ls), draws, now) + more, now)
  {
    hide AtNode, MayLeave, VisitsActs, RoundsActs, Opening, SumTo, Share, Looks;
    KnownHere(x, p, n, net, ls, now);
    var r, d := Opening(x, ls), draws[0];
    var acts := RoundsActs(x, net, ls, r, draws, now);
    FirstRoundFirst(x, net, ls, r, draws, now);
    forall i: nat | Reaches(x, ls, d, i) && forall k :: 0 <= k <= i ==> MayLeave(net, ls[k], now)
      ensures Looks(ls[..i + 1], now) + [Move(ls[i], now)] <= acts + more
    {
      ReachesFirst(x, p, n, net, ls, d, i, now);
    }
  }

  lemma {:induction false} KnownHere(x: Context, p: real, n: NodeId, net: NetState, ls: seq<LinkId>, now: Tick)
    requires AtNode(x, p, n, net, ls, now) && AllKnown(x, ls)
    requires forall l :: l in x.g.links ==> x.g.links[l].capacity >= 0.0
    ensures (forall l :: l in ls ==> l in x.g.links) && forall k :: 0 <= k < |ls| ==> CapOf(x, ls[k]) >= 0.0
  {
    hide CapOf, NetInvariant.Inv;
    QueuesHere(x, p, n, net, ls, now);
    CapsAbove(x, p, net, ls);
  }

  lemma {:induction false} ReachesFirst(x: Context, p: real, n: NodeId, net: NetState, ls: seq<LinkId>, d: real, i: nat, now: Tick)
    requires AtNode(x, p, n, net, ls, now) && AllKnown(x, ls) && Reaches(x, ls, d, i)
    requires forall l :: l in x.g.links ==> x.g.links[l].capacity >= 0.0
    requires forall k :: 0 <= k <= i ==> MayLeave(net, ls[k], now)
    ensures forall l :: l in ls ==> l in x.g.links
    ensures Looks(ls[..i + 1], now) + [Move(ls[i], now)] <=
            VisitsActs(x, net, ls, |ls|, Opening(x, ls), Share(d, Opening(x, ls).avail), now)
  {
    hide AtNode, MayLeave, VisitsActs, CapOf, Opening, SumTo, Looks;
    KnownHere(x, p, n, net, ls, now);
    OpeningSum(x, ls);
    var total := SumTo(x, ls, |ls|);
    ShareIs(d, total);
    forall k | 0 < k <= i
      ensures SumTo(x, ls, k) < d * total
    {
      SumGrows(x, ls, k, i);
    }
    FirstRelease(x, p, n, net, ls, i, d * total, now);
    VisitsActsPrefix(x, net, ls, i + 1, |ls|, Opening(x, ls), d * total, now);
  }

  lemma {:induction false} ShareIs(d: real, avail: real)
    ensures Share(d, avail) == d * avail
  {
  }

  lemma {:induction false} OpeningSum(x: Context, ls: seq<LinkId>)
    requires AllKnown(x, ls) && forall l :: l in ls ==> l in x.g.links
    ensures Opening(x, ls).avail == SumTo(x, ls, |ls|)
  {
    hide CapOf, OpenCap;
    SumIsOpen(x, ls, |ls|);
  }

  // ------------------------------------------------------------------ every link by its share

  /** For every draw there is exactly one link at which the capacities reach it. */
  lemma {:induction false} OneReaches(x: Context, ls: seq<LinkId>, d: real) returns (i: nat)
    requires AllKnown(x, ls) && ls != [] && 0.0 <= d < 1.0 && forall k :: 0 <= k < |ls| ==> CapOf(x, ls[k]) >= 0.0
    ensures Reaches(x, ls, d, i) && forall j: nat :: Reaches(x, ls, d, j) ==> j == i
  {
    hide CapOf;
    var total := SumTo(x, ls, |ls|);
    var drawn := d * total;
    SumGrows(x, ls, 0, |ls|);
    assert SumTo(x, ls, 0) == 0.0;
    AtMostAll(d, total);
    hide SumTo;
    var last := |ls| - 1;
    assert last + 1 == |ls|;
    i := FirstAbove(x, ls, drawn, last);
    forall j: nat | Reaches(x, ls, d, j)
      ensures j == i
    {
      if j < i {
        SumGrows(x, ls, j + 1, i);
      } else if i < j {
        SumGrows(x, ls, i + 1, j);
      }
    }
  }

  lemma {:induction false} AtMostAll(d: real, total: real)
    requires 0.0 <= d < 1.0 && total >= 0.0
    ensures d * total <= total
  {
    if total > 0.0 {
      DrawBelow(d, total);
    }
  }

  lemma {:induction false} FirstAbove(x: Context, ls: seq<LinkId>, drawn: real, j: nat) returns (i: nat)
    requires AllKnown(x, ls) && j < |ls| && drawn <= SumTo(x, ls, j + 1)
    ensures i <= j && drawn <= SumTo(x, ls, i + 1) && (i > 0 ==> SumTo(x, ls, i) < drawn)
  {
    hide SumTo;
    if j > 0 && drawn <= SumTo(x, ls, j) {
      i := FirstAbove(x, ls, drawn, j - 1);
    } else {
      i := j;
    }
  }

  /** The draws that make link i the first one are an interval as long as its share of the capacities. */
  lemma {:induction false} DrawsOfALink(x: Context, ls: seq<LinkId>, i: nat)
    requires AllKnown(x, ls) && i < |ls| && SumTo(x, ls, |ls|) > 0.0
    ensures var total := SumTo(x, ls, |ls|);
            var low, high := SumTo(x, ls, i) / total, SumTo(x, ls, i + 1) / total;
            && high - low == CapOf(x, ls[i]) / total
            && forall d: real :: (low < d || i == 0) && d <= high <==> Reaches(x, ls, d, i)
  {
    hide CapOf;
    var total := SumTo(x, ls, |ls|);
    var a, b := SumTo(x, ls, i), SumTo(x, ls, i + 1);
    assert b == a + CapOf(x, ls[i]);
    hide SumTo;
    assert b / total - a / total == CapOf(x, ls[i]) / total;
    forall d: real
      ensures (a / total < d || i == 0) && d <= b / total <==> Reaches(x, ls, d, i)
    {
      InShares(a, d, total);
      InShares(b, d, total);
    }
  }

  lemma {:induction false} InShares(a: real, d: real, total: real)
    requires total > 0.0
    ensures (a / total < d <==> a < d * total) && (d <= a / total <==> d * total <= a)
  {
    var q := a / total;
    assert q * total == a;
    if q < d {
      assert (d - q) * total > 0.0;
    } else {
      assert (q - d) * total >= 0.0;
    }
  }
}
