/**
 * What the loop of a node computes, as a function of the draws, and when it leaves nothing behind.
 * A round nudges the available capacity once for every exhausted link; from the second round on
 * every open link releases a vehicle in every round. So nothing is left behind as long as vehicles
 * are not smaller than the nudges of one round.
 */
module NodeLoop {
  import opened Basics
  import opened FlowCap
  import opened Storage
  import opened StuckTimers
  import opened LinkSpec
  import LinkRuns
  import opened RoadNetwork
  import opened Links
  import opened NetSpec
  import opened NodeMoves
  import NetInvariant

  /** The in-links a node looks at are links of the network, each once, and each with a queue. */
  ghost predicate Queues(x: Context, net: NetState, ls: seq<LinkId>)
  {
    ValidConfig(x.c) && NoDuplicates(ls) && forall l :: l in ls ==> l in x.g.links && l in net.links && !net.links[l].Out?
  }

  ghost predicate AllKnown(x: Context, ls: seq<LinkId>)
  {
    ValidConfig(x.c) && forall i :: 0 <= i < |ls| ==> ls[i] in x.g.links
  }

  // ------------------------------------------------------------------ the loop as a function

  ghost function VisitOne(x: Context, net: NetState, ls: seq<LinkId>, i: nat, r: Round, drawn: real, now: Tick): (s: (NetState, Round))
    requires AllKnown(x, ls) && i < |ls| == |r.ex|
    ensures |s.1.ex| == |r.ex|
  {
    if r.ex[i] then (net, r.(avail := r.avail - 0.000001))
    else
      var looked := Apply(x, net, Look(ls[i], now));
      if ShouldMove(looked, ls[i], now) then
        var sel := r.sel + CapOf(x, ls[i]);
        (if sel >= drawn then Apply(x, looked, Move(ls[i], now)) else looked, r.(sel := sel))
      else (looked, r.(avail := r.avail - CapOf(x, ls[i]), ex := r.ex[i := true]))
  }

  /** The first n links of one round. */
  ghost function Visits(x: Context, net: NetState, ls: seq<LinkId>, n: nat, r: Round, drawn: real, now: Tick): (s: (NetState, Round))
    requires AllKnown(x, ls) && n <= |ls| == |r.ex|
    ensures |s.1.ex| == |r.ex|
  {
    if n == 0 then (net, r)
    else
      var s := Visits(x, net, ls, n - 1, r, drawn, now);
      VisitOne(x, s.0, ls, n - 1, s.1, drawn, now)
  }

  /** What a draw stands for: a share of the available capacity. */
  function Share(draw: real, avail: real): (r: real)
  {
    draw * avail
  }

  lemma {:induction false} ShareBelow(draw: real, avail: real)
    requires 0.0 <= draw < 1.0 && avail > 0.0
    ensures 0.0 <= Share(draw, avail) < avail
  {
    DrawBelow(draw, avail);
  }

  /** One round for every draw. */
  ghost function Rounds(x: Context, net: NetState, ls: seq<LinkId>, r: Round, draws: seq<real>, now: Tick): (s: (NetState, Round))
    requires AllKnown(x, ls) && |ls| == |r.ex|
    ensures |s.1.ex| == |r.ex|
  {
    if draws == [] then (net, r)
    else
      var n := |draws| - 1;
      var s := Rounds(x, net, ls, r, draws[..n], now);
      Visits(x, s.0, ls, |ls|, s.1, Share(draws[n], s.1.avail), now)
  }

  /** The state before the first round. */
  ghost function Opening(x: Context, ls: seq<LinkId>): (r: Round)
    requires ValidConfig(x.c) && forall l :: l in ls ==> l in x.g.links
    ensures |r.ex| == |ls|
  {
    Round(OpenCap(Caps(x, ls), NoneExhausted(|ls|), |ls|), 0.0, NoneExhausted(|ls|))
  }

  /** With these draws the loop goes on as long as there are any, and then ends. */
  ghost predicate EndsWith(x: Context, net: NetState, ls: seq<LinkId>, r: Round, draws: seq<real>, now: Tick)
    requires AllKnown(x, ls) && |ls| == |r.ex|
  {
    GoesOn(x, net, ls, r, draws, now) && Rounds(x, net, ls, r, draws, now).1.avail <= 0.0000000001
  }

  /** The loop has not ended before any of these draws. */
  ghost predicate GoesOn(x: Context, net: NetState, ls: seq<LinkId>, r: Round, draws: seq<real>, now: Tick)
    requires AllKnown(x, ls) && |ls| == |r.ex|
  {
    && (forall k :: 0 <= k < |draws| ==> 0.0 <= draws[k] < 1.0)
    && (forall k :: 0 <= k < |draws| ==> Rounds(x, net, ls, r, draws[..k], now).1.avail > 0.0000000001)
  }

  lemma {:induction false} NoRounds(x: Context, net: NetState, ls: seq<LinkId>, r: Round, now: Tick)
    requires AllKnown(x, ls) && |ls| == |r.ex|
    ensures GoesOn(x, net, ls, r, [], now) && Rounds(x, net, ls, r, [], now) == (net, r)
  {
  }

  lemma {:induction false} OneMoreRound(x: Context, net: NetState, ls: seq<LinkId>, r: Round, draws: seq<real>, draw: real, now: Tick)
    requires AllKnown(x, ls) && |ls| == |r.ex| && 0.0 <= draw < 1.0 && GoesOn(x, net, ls, r, draws, now)
    requires Rounds(x, net, ls, r, draws, now).1.avail > 0.0000000001
    ensures GoesOn(x, net, ls, r, draws + [draw], now)
    ensures var s := Rounds(x, net, ls, r, draws, now);
            Rounds(x, net, ls, r, draws + [draw], now) == Visits(x, s.0, ls, |ls|, s.1, Share(draw, s.1.avail), now)
  {
    hide Visits, Share, Rounds;
    LastRound(x, net, ls, r, draws, draw, now);
    var more := draws + [draw];
    assert forall k :: 0 <= k < |draws| ==> more[..k] == draws[..k];
    assert more[..|draws|] == draws;
  }

  lemma {:induction false} NoVisits(x: Context, net: NetState, ls: seq<LinkId>, r: Round, drawn: real, now: Tick)
    requires AllKnown(x, ls) && |ls| == |r.ex|
    ensures Visits(x, net, ls, 0, r, drawn, now) == (net, r)
  {
  }

  /** The next visit, by whether the link is exhausted and whether it may release a vehicle. */
  lemma {:induction false} NextVisit(x: Context, first: NetState, net: NetState, ls: seq<LinkId>, i: nat, before: Round, r: Round, drawn: real, now: Tick)
    requires AllKnown(x, ls) && i < |ls| == |before.ex| == |r.ex| && (net, r) == Visits(x, first, ls, i, before, drawn, now)
    ensures var s := Visits(x, first, ls, i + 1, before, drawn, now);
            var looked := Apply(x, net, Look(ls[i], now));
            var sel := r.sel + CapOf(x, ls[i]);
            && (r.ex[i] ==> s == (net, r.(avail := r.avail - 0.000001)))
            && (!r.ex[i] && ShouldMove(looked, ls[i], now) ==>
                  s == (if sel >= drawn then Apply(x, looked, Move(ls[i], now)) else looked, r.(sel := sel)))
            && (!r.ex[i] && !ShouldMove(looked, ls[i], now) ==>
                  s == (looked, r.(avail := r.avail - CapOf(x, ls[i]), ex := r.ex[i := true])))
  {
    hide CapOf, ShouldMove, Apply;
  }

  /** The links are asked in order until one offers a vehicle. */
  ghost function AskUntil(x: Context, net: NetState, ls: seq<LinkId>, t: Tick): (r: NetState)
    decreases |ls|
  {
    if ls == [] then net
    else
      var asked := Apply(x, net, Look(ls[0], t));
      if ls[0] in net.links && OffersVeh(net.links[ls[0]]) then asked else AskUntil(x, asked, ls[1..], t)
  }

  // ------------------------------------------------------------------ the work of nodes as a function

  lemma {:induction false} InLinksKnown(x: Context, n: NodeId, s: set<LinkId>)
    requires Wired(x.g) && ValidConfig(x.c) && n in x.g.nodes
    ensures AllKnown(x, Among(x.g.nodes[n].inLinks, s))
  {
    var ls := Among(x.g.nodes[n].inLinks, s);
    assert NodeWired(x.g, n);
    forall i | 0 <= i < |ls|
      ensures ls[i] in x.g.links
    {
      assert ls[i] in ls;
    }
  }

  /** The work of node n for these draws: its loop over the active in-links, and the question which of them offers a vehicle. */
  ghost function NodeWork(x: Context, net: NetState, n: NodeId, draws: seq<real>, now: Tick): (r: NetState)
    requires Wired(x.g) && ValidConfig(x.c) && n in x.g.nodes
  {
    var active := Among(x.g.nodes[n].inLinks, net.activeLinks);
    InLinksKnown(x, n, net.activeLinks);
    AskUntil(x, Rounds(x, net, active, Opening(x, active), draws, now).0, active, Next(now))
  }

  /** The loop of node n ends with these draws. */
  ghost predicate NodeEnds(x: Context, net: NetState, n: NodeId, draws: seq<real>, now: Tick)
    requires Wired(x.g) && ValidConfig(x.c) && n in x.g.nodes
  {
    var active := Among(x.g.nodes[n].inLinks, net.activeLinks);
    InLinksKnown(x, n, net.activeLinks);
    EndsWith(x, net, active, Opening(x, active), draws, now)
  }

  /** The nodes in the list work one after the other, each with its own draws. */
  ghost function NodesWork(x: Context, net: NetState, order: seq<NodeId>, draws: map<NodeId, seq<real>>, now: Tick): (r: NetState)
    requires Wired(x.g) && ValidConfig(x.c) && forall n :: n in order ==> n in x.g.nodes && n in draws
  {
    if order == [] then net
    else
      var n := order[|order| - 1];
      NodeWork(x, NodesWork(x, net, order[..|order| - 1], draws, now), n, draws[n], now)
  }

  /** Every loop ends with its draws. */
  ghost predicate NodesEnd(x: Context, net: NetState, order: seq<NodeId>, draws: map<NodeId, seq<real>>, now: Tick)
    requires Wired(x.g) && ValidConfig(x.c) && forall n :: n in order ==> n in x.g.nodes && n in draws
  {
    order == [] ||
    (var n := order[|order| - 1];
     NodesEnd(x, net, order[..|order| - 1], draws, now) && NodeEnds(x, NodesWork(x, net, order[..|order| - 1], draws, now), n, draws[n], now))
  }

  /** Nodes at which no link offers a vehicle are put to rest. */
  ghost function Rested(x: Context, net: NetState): (r: NetState)
  {
    net.(activeNodes := set n | n in net.activeNodes && !NothingOffered(x, net, n))
  }

  /** One more node, with draws of its own. */
  lemma {:induction false} OneMoreNode(x: Context, net: NetState, order: seq<NodeId>, draws: map<NodeId, seq<real>>, n: NodeId, own: seq<real>, now: Tick)
    requires Wired(x.g) && ValidConfig(x.c) && (forall k :: k in order ==> k in x.g.nodes && k in draws) && n in x.g.nodes && n !in order
    ensures var more := draws[n := own];
            && NodesWork(x, net, order + [n], more, now) == NodeWork(x, NodesWork(x, net, order, draws, now), n, own, now)
            && (NodesEnd(x, net, order + [n], more, now) <==>
                  NodesEnd(x, net, order, draws, now) && NodeEnds(x, NodesWork(x, net, order, draws, now), n, own, now))
  {
    hide NodeWork, NodeEnds, Wired;
    assert (order + [n])[..|order|] == order;
    SameDraws(x, net, order, draws, draws[n := own], now);
  }

  /** Exactly the nodes done have worked since start, in this order and with these draws. */
  ghost predicate NodesWorked(x: Context, start: NetState, net: NetState, order: seq<NodeId>, draws: map<NodeId, seq<real>>, done: set<NodeId>, now: Tick)
  {
    && Wired(x.g) && ValidConfig(x.c) && NoDuplicates(order) && (forall n :: n in order <==> n in done)
    && (forall n :: n in order ==> n in x.g.nodes && n in draws)
    && NodesEnd(x, start, order, draws, now) && net == NodesWork(x, start, order, draws, now)
  }

  lemma {:induction false} NoneWorked(x: Context, start: NetState, now: Tick)
    requires Wired(x.g) && ValidConfig(x.c)
    ensures NodesWorked(x, start, start, [], map[], {}, now)
  {
  }

  lemma {:induction false} OneMoreWorked(x: Context, start: NetState, a: NetState, b: NetState, order: seq<NodeId>, draws: map<NodeId, seq<real>>,
                                         done: set<NodeId>, n: NodeId, own: seq<real>, now: Tick)
    requires NodesWorked(x, start, a, order, draws, done, now) && n in x.g.nodes && n !in done
    requires NodeEnds(x, a, n, own, now) && b == NodeWork(x, a, n, own, now)
    ensures NodesWorked(x, start, b, order + [n], draws[n := own], done + {n}, now)
  {
    hide NodesWork, NodesEnd, NodeWork, NodeEnds, Wired;
    OneMoreNode(x, start, order, draws, n, own, now);
  }

  lemma {:induction false} SameDraws(x: Context, net: NetState, order: seq<NodeId>, a: map<NodeId, seq<real>>, b: map<NodeId, seq<real>>, now: Tick)
    requires Wired(x.g) && ValidConfig(x.c)
    requires forall k :: k in order ==> k in x.g.nodes && k in a && k in b && a[k] == b[k]
    ensures NodesWork(x, net, order, a, now) == NodesWork(x, net, order, b, now)
    ensures NodesEnd(x, net, order, a, now) <==> NodesEnd(x, net, order, b, now)
  {
    hide NodeWork, NodeEnds, Wired;
    if order != [] {
      assert order[|order| - 1] in order && forall k :: k in order[..|order| - 1] ==> k in order;
      SameDraws(x, net, order[..|order| - 1], a, b, now);
    }
  }

  // ------------------------------------------------------------------ what one visit does

  /** No vehicle in the buffers of the links is smaller than m. */
  ghost predicate AtLeast(net: NetState, ls: seq<LinkId>, m: real)
  {
    forall l, v :: l in ls && l in net.links && !net.links[l].Out? && v in net.links[l].s.buffer ==> v.pce >= m
  }

  ghost function Rem(net: NetState, l: LinkId): (r: real)
    requires l in net.links && !net.links[l].Out?
  {
    net.links[l].s.flow.remaining
  }

  /** The exits of the links ls are as before, but for link l. */
  ghost predicate OnlyExit(a: NetState, b: NetState, ls: seq<LinkId>, l: LinkId)
  {
    && (forall k :: k in ls && k in a.links && !a.links[k].Out? ==> k in b.links && !b.links[k].Out?)
    && (forall k :: k in ls && k != l && k in a.links && !a.links[k].Out? ==>
          b.links[k].s.flow == a.links[k].s.flow && b.links[k].s.buffer == a.links[k].s.buffer)
  }

  lemma {:induction false} LookEffect(x: Context, net: NetState, ls: seq<LinkId>, l: LinkId, now: Tick)
    requires l in ls && l in net.links && !net.links[l].Out?
    ensures var r := Apply(x, net, Look(l, now));
            OnlyExit(net, r, ls, l) && r.links[l].s.flow == net.links[l].s.flow && r.links[l].s.buffer == net.links[l].s.buffer
  {
  }

  lemma {:induction false} MoveEffect(x: Context, net: NetState, ls: seq<LinkId>, l: LinkId, now: Tick)
    requires l in ls && ShouldMove(net, l, now)
    ensures var r := Apply(x, net, Move(l, now));
            && OnlyExit(net, r, ls, l)
            && Rem(r, l) == Rem(net, l) - net.links[l].s.buffer[0].pce
            && r.links[l].s.buffer == net.links[l].s.buffer[1..]
  {
    MoveParts(net, l, now);
    MoveFlow(net, l, now);
    hide MoveVehicle, TravelTicks;
  }

  lemma {:induction false} MoveFlow(net: NetState, l: LinkId, now: Tick)
    requires MoveIsDefined(net, l)
    ensures MoveVehicle(net, l, now).links[l].s.flow == Consume(net.links[l].s.flow, net.links[l].s.buffer[0].pce)
  {
    hide TravelTicks;
  }

  /** The parts of a visit: state, exits, capacity passed and capacity left. */
  ghost predicate OneVisit(x: Context, a: NetState, b: NetState, ls: seq<LinkId>, i: nat, r: Round, s: Round, drawn: real, m: real)
    requires i < |ls| == |r.ex| == |s.ex| && Queues(x, a, ls)
  {
    && OnlyExit(a, b, ls, ls[i]) && AtLeast(b, ls, m)
    && Rem(b, ls[i]) <= Rem(a, ls[i])
    && (!s.ex[i] && drawn <= s.sel ==> Rem(b, ls[i]) <= Rem(a, ls[i]) - m)
    && s.ex == (if s.ex[i] then r.ex[i := true] else r.ex)
    && s.sel == (if s.ex[i] then r.sel else r.sel + CapOf(x, ls[i]))
    && s.avail == r.avail - (if r.ex[i] then 0.000001 else if s.ex[i] then CapOf(x, ls[i]) else 0.0)
  }

  lemma {:induction false} VisitOneEffect(x: Context, net: NetState, ls: seq<LinkId>, i: nat, r: Round, drawn: real, now: Tick, m: real)
    requires AllKnown(x, ls) && i < |ls| == |r.ex| && Queues(x, net, ls) && AtLeast(net, ls, m) && m >= 0.0
    ensures var s := VisitOne(x, net, ls, i, r, drawn, now);
            OneVisit(x, net, s.0, ls, i, r, s.1, drawn, m) && Queues(x, s.0, ls)
  {
    hide CapOf, ShouldMove, Apply;
    var l := ls[i];
    if !r.ex[i] {
      LookEffect(x, net, ls, l, now);
      var looked := Apply(x, net, Look(l, now));
      ExitKeepsSize(net, looked, ls, l, m);
      if ShouldMove(looked, l, now) && r.sel + CapOf(x, l) >= drawn {
        HeadOf(looked, l, now);
        MoveEffect(x, looked, ls, l, now);
        var moved := Apply(x, looked, Move(l, now));
        ExitKeepsSize(looked, moved, ls, l, m);
      }
    }
  }

  lemma {:induction false} HeadOf(net: NetState, l: LinkId, now: Tick)
    requires ShouldMove(net, l, now)
    ensures l in net.links && !net.links[l].Out? && net.links[l].s.buffer != [] && net.links[l].s.buffer[0] in net.links[l].s.buffer
  {
  }

  lemma {:induction false} ExitKeepsSize(a: NetState, b: NetState, ls: seq<LinkId>, l: LinkId, m: real)
    requires OnlyExit(a, b, ls, l) && AtLeast(a, ls, m) && l in ls
    requires forall k :: k in ls ==> k in a.links && !a.links[k].Out?
    requires b.links[l].s.buffer == a.links[l].s.buffer || (a.links[l].s.buffer != [] && b.links[l].s.buffer == a.links[l].s.buffer[1..])
    ensures AtLeast(b, ls, m)
  {
    forall k, v | k in ls && k in b.links && !b.links[k].Out? && v in b.links[k].s.buffer
      ensures v.pce >= m
    {
      assert v in a.links[k].s.buffer;
    }
  }

  // ------------------------------------------------------------------ what one round does

  function Exhausted(ex: seq<bool>, j: nat): (n: nat)
    requires j <= |ex|
  {
    j - OpenCount(ex, j)
  }

  /** The first j links of a round, from state a and round r to state b and round s. */
  ghost predicate RoundSoFar(x: Context, a: NetState, b: NetState, ls: seq<LinkId>, j: nat, r: Round, s: Round, drawn: real, m: real)
    requires j <= |ls| == |r.ex| == |s.ex| && Queues(x, a, ls) && Queues(x, b, ls)
  {
    && AtLeast(b, ls, m)
    && (forall k :: 0 <= k < |ls| && r.ex[k] ==> s.ex[k])
    && (forall k :: j <= k < |ls| ==> s.ex[k] == r.ex[k])
    && (forall k :: 0 <= k < |ls| ==> Rem(b, ls[k]) <= Rem(a, ls[k]))
    && (drawn <= r.sel ==> forall k :: 0 <= k < j && !s.ex[k] ==> Rem(b, ls[k]) <= Rem(a, ls[k]) - m)
    && s.sel >= r.sel + OpenCap(Caps(x, ls), s.ex, j)
    && s.avail == r.avail - (OpenCap(Caps(x, ls), r.ex, |ls|) - OpenCap(Caps(x, ls), s.ex, |ls|)) - 0.000001 * Exhausted(r.ex, j) as real
  }

  lemma {:induction false} VisitsEffect(x: Context, net: NetState, ls: seq<LinkId>, j: nat, r: Round, drawn: real, now: Tick, m: real)
    requires AllKnown(x, ls) && j <= |ls| == |r.ex| && Queues(x, net, ls) && AtLeast(net, ls, m) && m >= 0.0
    requires NoneNegative(Caps(x, ls))
    ensures var s := Visits(x, net, ls, j, r, drawn, now);
            Queues(x, s.0, ls) && RoundSoFar(x, net, s.0, ls, j, r, s.1, drawn, m)
  {
    if j > 0 {
      VisitsEffect(x, net, ls, j - 1, r, drawn, now, m);
      var s := Visits(x, net, ls, j - 1, r, drawn, now);
      VisitOneEffect(x, s.0, ls, j - 1, s.1, drawn, now, m);
      var t := VisitOne(x, s.0, ls, j - 1, s.1, drawn, now);
      hide VisitOne, CapOf, AtLeast, Queues;
      VisitedMore(x, net, s.0, t.0, ls, j, r, s.1, t.1, drawn, m);
    }
  }

  lemma {:induction false} VisitedMore(x: Context, a: NetState, b: NetState, c: NetState, ls: seq<LinkId>, j: nat, r: Round, s: Round, t: Round,
                                       drawn: real, m: real)
    requires 0 < j <= |ls| == |r.ex| == |s.ex| == |t.ex| && Queues(x, a, ls) && Queues(x, b, ls) && Queues(x, c, ls)
    requires RoundSoFar(x, a, b, ls, j - 1, r, s, drawn, m) && OneVisit(x, b, c, ls, j - 1, s, t, drawn, m) && NoneNegative(Caps(x, ls))
    ensures RoundSoFar(x, a, c, ls, j, r, t, drawn, m)
  {
    var caps := Caps(x, ls);
    VisitedExits(x, a, b, c, ls, j, r, s, t, drawn, m);
    VisitedSums(caps, j, r.ex, s.ex, t.ex);
    hide AtLeast, CapOf, OnlyExit, OpenCap, OpenCount;
  }

  lemma {:induction false} VisitedExits(x: Context, a: NetState, b: NetState, c: NetState, ls: seq<LinkId>, j: nat, r: Round, s: Round, t: Round,
                                        drawn: real, m: real)
    requires 0 < j <= |ls| == |r.ex| == |s.ex| == |t.ex| && Queues(x, a, ls) && Queues(x, b, ls) && Queues(x, c, ls)
    requires RoundSoFar(x, a, b, ls, j - 1, r, s, drawn, m) && OneVisit(x, b, c, ls, j - 1, s, t, drawn, m) && NoneNegative(Caps(x, ls))
    ensures forall k :: 0 <= k < |ls| ==> Rem(c, ls[k]) <= Rem(a, ls[k])
    ensures drawn <= r.sel ==> forall k :: 0 <= k < j && !t.ex[k] ==> Rem(c, ls[k]) <= Rem(a, ls[k]) - m
  {
    hide AtLeast, CapOf, OpenCap, OpenCount;
    OpenCapBounds(Caps(x, ls), s.ex, j - 1);
    assert t.sel >= s.sel >= r.sel;
    OthersRemain(x, b, c, ls, j - 1);
    hide OnlyExit, Queues, Caps;
    forall k | 0 <= k < |ls|
      ensures Rem(c, ls[k]) <= Rem(a, ls[k])
      ensures drawn <= r.sel && k < j && !t.ex[k] ==> Rem(c, ls[k]) <= Rem(a, ls[k]) - m
    {
      assert Rem(b, ls[k]) <= Rem(a, ls[k]);
    }
  }

  lemma {:induction false} OthersRemain(x: Context, b: NetState, c: NetState, ls: seq<LinkId>, i: nat)
    requires i < |ls| && Queues(x, b, ls) && Queues(x, c, ls) && OnlyExit(b, c, ls, ls[i])
    ensures forall k :: 0 <= k < |ls| && k != i ==> Rem(c, ls[k]) == Rem(b, ls[k])
  {
    forall k | 0 <= k < |ls| && k != i
      ensures Rem(c, ls[k]) == Rem(b, ls[k])
    {
      assert ls[k] != ls[i];
    }
  }

  /** The sums after one more link: it was exhausted before, it is exhausted now, or it stays open. */
  lemma {:induction false} VisitedSums(caps: seq<real>, j: nat, r: seq<bool>, s: seq<bool>, t: seq<bool>)
    requires 0 < j <= |caps| == |r| == |s| == |t| && t == (if t[j - 1] then s[j - 1 := true] else s) && s[j - 1] == r[j - 1]
    ensures OpenCap(caps, t, j) == OpenCap(caps, s, j - 1) + (if t[j - 1] then 0.0 else caps[j - 1])
    ensures OpenCap(caps, t, |caps|) == OpenCap(caps, s, |caps|) - (if t[j - 1] && !s[j - 1] then caps[j - 1] else 0.0)
    ensures Exhausted(r, j) == Exhausted(r, j - 1) + (if r[j - 1] then 1 else 0)
  {
    if t[j - 1] && !s[j - 1] {
      MarkExhausted(caps, s, j - 1, j);
      MarkExhausted(caps, s, j - 1, j - 1);
      MarkExhausted(caps, s, j - 1, |caps|);
    } else if t[j - 1] {
      assert s[j - 1 := true] == s;
    }
  }

  // ------------------------------------------------------------------ all rounds

  /** How often the available capacity was nudged. */
  ghost function Nudges(x: Context, net: NetState, ls: seq<LinkId>, r: Round, draws: seq<real>, now: Tick): (n: nat)
    requires AllKnown(x, ls) && |ls| == |r.ex|
  {
    if draws == [] then 0
    else
      var n := |draws| - 1;
      Nudges(x, net, ls, r, draws[..n], now) + Exhausted(Rounds(x, net, ls, r, draws[..n], now).1.ex, |ls|)
  }

  /** What a link that was open in n rounds has lost at least: one vehicle in every round after the first. */
  function Lost(n: nat, m: real): (r: real)
  {
    if n <= 1 then 0.0 else Lost(n - 1, m) + m
  }

  lemma {:induction false} LostIs(n: nat, m: real)
    requires n > 0
    ensures Lost(n, m) == (n - 1) as real * m
  {
    if n > 1 {
      LostIs(n - 1, m);
      assert (n - 1) as real * m == (n - 2) as real * m + m;
    }
  }

  /** After n rounds: who is open has been passed in the first round and has moved in every later one. */
  ghost predicate After(x: Context, start: NetState, net: NetState, ls: seq<LinkId>, r: Round, n: nat, nudges: nat, m: real)
    requires |ls| == |r.ex| && Queues(x, start, ls) && Queues(x, net, ls)
  {
    var caps := Caps(x, ls);
    && AtLeast(net, ls, m) && r.sel >= 0.0
    && r.avail == OpenCap(caps, r.ex, |ls|) - 0.000001 * nudges as real
    && (n == 0 ==> nudges == 0 && forall k :: 0 <= k < |ls| ==> !r.ex[k])
    && (n > 0 ==> nudges <= (n - 1) * Exhausted(r.ex, |ls|) && r.sel >= OpenCap(caps, r.ex, |ls|))
    && (forall k :: 0 <= k < |ls| ==> Rem(net, ls[k]) <= Rem(start, ls[k]))
    && (forall k :: 0 <= k < |ls| && !r.ex[k] ==> Rem(net, ls[k]) <= Rem(start, ls[k]) - Lost(n, m))
  }

  lemma {:induction false} RoundsEffect(x: Context, net: NetState, ls: seq<LinkId>, draws: seq<real>, now: Tick, m: real)
    requires AllKnown(x, ls) && Queues(x, net, ls) && AtLeast(net, ls, m) && m >= 0.0 && NoneNegative(Caps(x, ls))
    requires forall k :: 0 <= k < |draws| ==> 0.0 <= draws[k] < 1.0
    requires forall k :: 0 <= k < |draws| ==> Rounds(x, net, ls, Opening(x, ls), draws[..k], now).1.avail > 0.0000000001
    ensures var s := Rounds(x, net, ls, Opening(x, ls), draws, now);
            Queues(x, s.0, ls) && After(x, net, s.0, ls, s.1, |draws|, Nudges(x, net, ls, Opening(x, ls), draws, now), m)
  {
    hide Visits, AtLeast, Queues, OpenCap, CapOf, Opening, After, Nudges, Rounds;
    if draws == [] {
      BeforeRounds(x, net, ls, now, m);
    } else {
      var r, n := Opening(x, ls), |draws| - 1;
      var front := draws[..n];
      assert forall k :: 0 <= k < n ==> front[..k] == draws[..k];
      RoundsEffect(x, net, ls, front, now, m);
      NextRound(x, net, ls, front, draws[n], now, m);
      assert draws == front + [draws[n]];
    }
  }

  lemma {:induction false} BeforeRounds(x: Context, net: NetState, ls: seq<LinkId>, now: Tick, m: real)
    requires AllKnown(x, ls) && Queues(x, net, ls) && AtLeast(net, ls, m)
    ensures var s := Rounds(x, net, ls, Opening(x, ls), [], now);
            Queues(x, s.0, ls) && After(x, net, s.0, ls, s.1, 0, Nudges(x, net, ls, Opening(x, ls), [], now), m)
  {
    hide AtLeast, CapOf, OpenCap;
  }

  lemma {:induction false} NextRound(x: Context, net: NetState, ls: seq<LinkId>, front: seq<real>, draw: real, now: Tick, m: real)
    requires AllKnown(x, ls) && Queues(x, net, ls) && m >= 0.0 && NoneNegative(Caps(x, ls)) && 0.0 <= draw < 1.0
    requires var s := Rounds(x, net, ls, Opening(x, ls), front, now);
             && s.1.avail > 0.0000000001 && Queues(x, s.0, ls)
             && After(x, net, s.0, ls, s.1, |front|, Nudges(x, net, ls, Opening(x, ls), front, now), m)
    ensures var t := Rounds(x, net, ls, Opening(x, ls), front + [draw], now);
            && Queues(x, t.0, ls)
            && After(x, net, t.0, ls, t.1, |front| + 1, Nudges(x, net, ls, Opening(x, ls), front + [draw], now), m)
  {
    hide AtLeast, Queues, OpenCap, CapOf, Opening, Visits, Lost, Rounds, Nudges, After, RoundSoFar, NoneNegative, Caps, Share;
    var r := Opening(x, ls);
    var s := Rounds(x, net, ls, r, front, now);
    var nudges := Nudges(x, net, ls, r, front, now);
    LastRound(x, net, ls, r, front, draw, now);
    AfterSize(x, net, s.0, ls, s.1, |front|, nudges, m);
    ShareBelow(draw, s.1.avail);
    VisitsEffect(x, s.0, ls, |ls|, s.1, Share(draw, s.1.avail), now, m);
    var t := Visits(x, s.0, ls, |ls|, s.1, Share(draw, s.1.avail), now);
    RoundMore(x, net, s.0, t.0, ls, s.1, t.1, |front|, nudges, Share(draw, s.1.avail), m);
  }

  /** The last round and its nudges. */
  lemma {:induction false} LastRound(x: Context, net: NetState, ls: seq<LinkId>, r: Round, front: seq<real>, draw: real, now: Tick)
    requires AllKnown(x, ls) && |ls| == |r.ex|
    ensures var s := Rounds(x, net, ls, r, front, now);
            && Rounds(x, net, ls, r, front + [draw], now) == Visits(x, s.0, ls, |ls|, s.1, Share(draw, s.1.avail), now)
            && Nudges(x, net, ls, r, front + [draw], now) == Nudges(x, net, ls, r, front, now) + Exhausted(s.1.ex, |ls|)
  {
    hide Visits, Share, Exhausted;
    assert (front + [draw])[..|front|] == front && (front + [draw])[|front|] == draw;
  }

  lemma {:induction false} AfterSize(x: Context, start: NetState, net: NetState, ls: seq<LinkId>, r: Round, n: nat, nudges: nat, m: real)
    requires |ls| == |r.ex| && Queues(x, start, ls) && Queues(x, net, ls) && After(x, start, net, ls, r, n, nudges, m)
    ensures AtLeast(net, ls, m)
  {
  }

  lemma {:induction false} RoundMore(x: Context, start: NetState, a: NetState, b: NetState, ls: seq<LinkId>, r: Round, s: Round, n: nat,
                                     nudges: nat, drawn: real, m: real)
    requires |ls| == |r.ex| == |s.ex| && Queues(x, start, ls) && Queues(x, a, ls) && Queues(x, b, ls) && m >= 0.0
    requires After(x, start, a, ls, r, n, nudges, m) && RoundSoFar(x, a, b, ls, |ls|, r, s, drawn, m)
    requires drawn <= r.avail && NoneNegative(Caps(x, ls))
    ensures After(x, start, b, ls, s, n + 1, nudges + Exhausted(r.ex, |ls|), m)
  {
    hide AtLeast, OpenCap, OpenCount, CapOf, Caps, Exhausted, OnlyExit, Lost;
    var caps := Caps(x, ls);
    LessOpen(caps, r.ex, s.ex, |ls|);
    OpenCapBounds(caps, s.ex, |ls|);
    NudgeCount(n, nudges, Exhausted(r.ex, |ls|), Exhausted(s.ex, |ls|));
    if n == 0 {
      NoneYet(r.ex, |ls|);
    }
    RoundExits(x, start, a, b, ls, r, s, n, nudges, drawn, m);
  }

  lemma {:induction false} RoundExits(x: Context, start: NetState, a: NetState, b: NetState, ls: seq<LinkId>, r: Round, s: Round, n: nat,
                                      nudges: nat, drawn: real, m: real)
    requires |ls| == |r.ex| == |s.ex| && Queues(x, start, ls) && Queues(x, a, ls) && Queues(x, b, ls) && m >= 0.0
    requires After(x, start, a, ls, r, n, nudges, m) && RoundSoFar(x, a, b, ls, |ls|, r, s, drawn, m)
    requires drawn <= r.avail
    ensures forall k :: 0 <= k < |ls| ==> Rem(b, ls[k]) <= Rem(start, ls[k])
    ensures forall k :: 0 <= k < |ls| && !s.ex[k] ==> Rem(b, ls[k]) <= Rem(start, ls[k]) - Lost(n + 1, m)
  {
    hide AtLeast, OpenCap, CapOf, Caps, Exhausted, OnlyExit;
    assert n > 0 ==> drawn <= r.sel;
    forall k | 0 <= k < |ls|
      ensures Rem(b, ls[k]) <= Rem(start, ls[k])
      ensures !s.ex[k] ==> Rem(b, ls[k]) <= Rem(start, ls[k]) - Lost(n + 1, m)
    {
      assert Rem(b, ls[k]) <= Rem(a, ls[k]);
    }
  }

  lemma {:induction false} NoneYet(ex: seq<bool>, j: nat)
    requires j <= |ex| && forall k :: 0 <= k < |ex| ==> !ex[k]
    ensures Exhausted(ex, j) == 0
  {
    if j > 0 {
      NoneYet(ex, j - 1);
    }
  }

  lemma {:induction false} NudgeCount(n: nat, nudges: nat, was: nat, later: nat)
    requires n > 0 ==> nudges <= (n - 1) * was
    requires was <= later
    ensures n > 0 ==> nudges + was <= n * later
  {
    if n > 0 {
      assert (n - 1) * was + was == n * was;
      assert n * was <= n * later;
    }
  }

  /** Links only ever become exhausted. */
  lemma {:induction false} LessOpen(caps: seq<real>, r: seq<bool>, s: seq<bool>, j: nat)
    requires j <= |caps| == |r| == |s| && NoneNegative(caps) && forall k :: 0 <= k < |r| && r[k] ==> s[k]
    ensures OpenCap(caps, s, j) <= OpenCap(caps, r, j) && Exhausted(r, j) <= Exhausted(s, j)
  {
    if j > 0 {
      LessOpen(caps, r, s, j - 1);
    }
  }

  // ------------------------------------------------------------------ nothing is left behind

  /** What the nudges of one round amount to if all but one of n links are exhausted. */
  function NudgesPerRound(n: nat): (m: real)
  {
    if n == 0 then 0.0 else 0.000001 * (n - 1) as real
  }

  /** An open link has nothing left to offer when the loop ends: its flow capacity is used up. */
  lemma {:induction false} OpenIsUsedUp(x: Context, p: real, net: NetState, ls: seq<LinkId>, draws: seq<real>, now: Tick, n: nat, i: nat)
    requires NetInvariant.Inv(x, p, net) && Queues(x, net, ls) && AllKnown(x, ls) && |ls| <= n && i < |ls|
    requires forall l :: l in x.g.links ==> x.g.links[l].capacity >= 0.0
    requires AtLeast(net, ls, NudgesPerRound(n)) && EndsWith(x, net, ls, Opening(x, ls), draws, now)
    requires !Rounds(x, net, ls, Opening(x, ls), draws, now).1.ex[i]
    ensures var end := Rounds(x, net, ls, Opening(x, ls), draws, now).0;
            ls[i] in end.links && !OffersVeh(end.links[ls[i]])
  {
    hide NetInvariant.Inv, CapOf, AtLeast, Rounds, Nudges, Opening, HasCapacityLeft, After, Exhausted, OpenCap;
    var m := NudgesPerRound(n);
    CapsAbove(x, p, net, ls);
    RoundsEffect(x, net, ls, draws, now, m);
    var s := Rounds(x, net, ls, Opening(x, ls), draws, now);
    var nudges := Nudges(x, net, ls, Opening(x, ls), draws, now);
    OpenAfter(x, net, s.0, ls, s.1, |draws|, nudges, n, i);
    assert ls[i] in ls;
    DryOffersNothing(s.0, ls[i]);
  }

  lemma {:induction false} DryOffersNothing(net: NetState, l: LinkId)
    requires l in net.links && !net.links[l].Out? && Rem(net, l) <= 0.0000000001
    ensures !OffersVeh(net.links[l])
  {
  }

  lemma {:induction false} CapsAbove(x: Context, p: real, net: NetState, ls: seq<LinkId>)
    requires NetInvariant.Inv(x, p, net) && Queues(x, net, ls)
    requires forall l :: l in x.g.links ==> x.g.links[l].capacity >= 0.0
    ensures NoneNegative(Caps(x, ls)) && forall k :: 0 <= k < |ls| ==> Rem(net, ls[k]) <= Caps(x, ls)[k]
  {
    hide NetInvariant.Inv, CapOf;
    forall k | 0 <= k < |ls|
      ensures Caps(x, ls)[k] >= 0.0 && Rem(net, ls[k]) <= Caps(x, ls)[k]
    {
      assert ls[k] in ls;
      CapIsFixed(x, p, net, ls[k]);
      FlowBounded(x, p, net, ls[k]);
    }
  }

  /** A link that is still open when the loop ends. */
  lemma {:induction false} OpenAfter(x: Context, start: NetState, net: NetState, ls: seq<LinkId>, r: Round, rounds: nat, nudges: nat, n: nat, i: nat)
    requires |ls| == |r.ex| && Queues(x, start, ls) && Queues(x, net, ls) && i < |ls| <= n && !r.ex[i]
    requires After(x, start, net, ls, r, rounds, nudges, NudgesPerRound(n)) && r.avail <= 0.0000000001
    requires NoneNegative(Caps(x, ls)) && Rem(start, ls[i]) <= Caps(x, ls)[i]
    ensures ls[i] in net.links && Rem(net, ls[i]) <= 0.0000000001
  {
    hide AtLeast, CapOf, Caps, NudgesPerRound, OpenCap, OpenCount;
    var caps := Caps(x, ls);
    assert ls[i] in ls;
    OpenCapBounds(caps, r.ex, |ls|);
    OneIsOpen(r.ex, i, |ls|);
    if rounds > 0 {
      LostIs(rounds, NudgesPerRound(n));
    }
    UsedUp(caps[i], Rem(start, ls[i]), Rem(net, ls[i]), OpenCap(caps, r.ex, |ls|), r.avail, nudges, rounds, Exhausted(r.ex, |ls|), n);
  }

  lemma {:induction false} FlowBounded(x: Context, p: real, net: NetState, l: LinkId)
    requires NetInvariant.Inv(x, p, net) && l in net.links && !net.links[l].Out?
    ensures net.links[l].s.flow.remaining <= net.links[l].s.flow.perTick
  {
    assert NetInvariant.LinkOk(x, p, l, net.links[l]);
  }

  lemma {:induction false} OneIsOpen(ex: seq<bool>, i: nat, j: nat)
    requires i < j <= |ex| && !ex[i]
    ensures Exhausted(ex, j) <= j - 1
  {
    if j - 1 > i {
      OneIsOpen(ex, i, j - 1);
    }
  }

  /** The arithmetic: what the link lost in moves is at least what the nudges took from the sum. */
  lemma {:induction false} UsedUp(cap: real, first: real, last: real, open: real, avail: real, nudges: nat, rounds: nat, exhausted: nat, n: nat)
    requires first <= cap <= open && avail == open - 0.000001 * nudges as real && avail <= 0.0000000001 && last <= first
    requires exhausted + 1 <= n
    requires rounds == 0 ==> nudges == 0
    requires rounds > 0 ==> nudges <= (rounds - 1) * exhausted && last <= first - (rounds - 1) as real * NudgesPerRound(n)
    ensures last <= 0.0000000001
  {
    if rounds > 0 {
      var k := rounds - 1;
      assert k * exhausted <= k * (n - 1);
      assert nudges as real <= (k * (n - 1)) as real;
      assert (k * (n - 1)) as real == k as real * (n - 1) as real;
      assert k as real * NudgesPerRound(n) == 0.000001 * (k as real * (n - 1) as real);
    }
  }

  // ------------------------------------------------------------------ exhausted links are blocked

  /** The links ls lead to node n of this partition, and no timer at the node was started after now. */
  ghost predicate AtNode(x: Context, p: real, n: NodeId, net: NetState, ls: seq<LinkId>, now: Tick)
  {
    && NetInvariant.Inv(x, p, net) && TimersAt(x, n, net, now) && NoDuplicates(ls)
    && n in x.g.nodes && x.g.nodes[n].part == x.part
    && forall l :: l in ls ==> LeadsTo(x, l, n)
  }

  ghost predicate ExhaustedBlocked(net: NetState, ls: seq<LinkId>, r: Round, now: Tick)
    requires |ls| == |r.ex|
  {
    forall i :: 0 <= i < |ls| && r.ex[i] ==> Blocked(net, ls[i], now)
  }

  lemma {:induction false} QueuesHere(x: Context, p: real, n: NodeId, net: NetState, ls: seq<LinkId>, now: Tick)
    requires AtNode(x, p, n, net, ls, now)
    ensures Queues(x, net, ls) && AllKnown(x, ls)
  {
    forall l | l in ls
      ensures l in x.g.links && l in net.links && !net.links[l].Out?
    {
      InLinkHere(x, p, n, net, l);
    }
  }

  lemma {:induction false} InLinkHere(x: Context, p: real, n: NodeId, net: NetState, l: LinkId)
    requires NetInvariant.Inv(x, p, net) && n in x.g.nodes && x.g.nodes[n].part == x.part && LeadsTo(x, l, n)
    ensures l in net.links && !net.links[l].Out?
  {
    hide NetInvariant.ActiveOk, NetInvariant.NodesOk, NetInvariant.OnNet;
    assert EndsKnown(x.g, l);
    assert NetInvariant.LinkOk(x, p, l, net.links[l]);
  }

  lemma {:induction false} VisitOneKeeps(x: Context, p: real, n: NodeId, net: NetState, ls: seq<LinkId>, i: nat, r: Round, drawn: real, now: Tick)
    requires AtNode(x, p, n, net, ls, now) && AllKnown(x, ls) && i < |ls| == |r.ex| && ExhaustedBlocked(net, ls, r, now)
    ensures var s := VisitOne(x, net, ls, i, r, drawn, now);
            AtNode(x, p, n, s.0, ls, now) && ExhaustedBlocked(s.0, ls, s.1, now)
  {
    hide AtNode, Blocked, Apply, CapOf, ShouldMove;
    if !r.ex[i] {
      var l := ls[i];
      var looked := Apply(x, net, Look(l, now));
      LookKeeps(x, p, n, net, ls, i, r.ex, now);
      if ShouldMove(looked, l, now) {
        MoveKeeps(x, p, n, looked, ls, i, r.ex, now);
      }
    }
  }

  lemma {:induction false} LookKeeps(x: Context, p: real, n: NodeId, net: NetState, ls: seq<LinkId>, i: nat, ex: seq<bool>, now: Tick)
    requires AtNode(x, p, n, net, ls, now) && i < |ls| == |ex|
    requires forall j :: 0 <= j < |ls| && j != i && ex[j] ==> Blocked(net, ls[j], now)
    ensures var s := Apply(x, net, Look(ls[i], now));
            && AtNode(x, p, n, s, ls, now) && (ShouldMove(s, ls[i], now) || Blocked(s, ls[i], now))
            && forall j :: 0 <= j < |ls| && j != i && ex[j] ==> Blocked(s, ls[j], now)
  {
    hide NetInvariant.Inv, Blocked, Apply, TimersAt, ShouldMove, Buffered, SameExits;
    var l := ls[i];
    assert l in ls;
    QueuesHere(x, p, n, net, ls, now);
    NetInvariant.ApplyKeepsInv(x, p, net, Look(l, now));
    LookVisits(x, p, n, ls, net, l, now);
    OthersBlocked(x, p, n, net, Apply(x, net, Look(l, now)), ls, i, ex, now);
  }

  lemma {:induction false} MoveKeeps(x: Context, p: real, n: NodeId, net: NetState, ls: seq<LinkId>, i: nat, ex: seq<bool>, now: Tick)
    requires AtNode(x, p, n, net, ls, now) && i < |ls| == |ex| && ShouldMove(net, ls[i], now)
    requires forall j :: 0 <= j < |ls| && j != i && ex[j] ==> Blocked(net, ls[j], now)
    ensures var s := Apply(x, net, Move(ls[i], now));
            AtNode(x, p, n, s, ls, now) && forall j :: 0 <= j < |ls| && j != i && ex[j] ==> Blocked(s, ls[j], now)
  {
    hide NetInvariant.Inv, Blocked, Apply, TimersAt, ShouldMove, Buffered, SameExits;
    var l := ls[i];
    assert l in ls;
    NetInvariant.ApplyKeepsInv(x, p, net, Move(l, now));
    MoveVisits(x, p, n, ls, net, l, now);
    OthersBlocked(x, p, n, net, Apply(x, net, Move(l, now)), ls, i, ex, now);
  }

  /** A visit of link i leaves the other links blocked. */
  lemma {:induction false} OthersBlocked(x: Context, p: real, n: NodeId, a: NetState, b: NetState, ls: seq<LinkId>, i: nat, ex: seq<bool>, now: Tick)
    requires NoDuplicates(ls) && i < |ls| == |ex| && Visited(x, p, n, ls, ls[i], now, a, b)
    requires forall j :: 0 <= j < |ls| && j != i && ex[j] ==> Blocked(a, ls[j], now)
    ensures forall j :: 0 <= j < |ls| && j != i && ex[j] ==> Blocked(b, ls[j], now)
  {
    hide Blocked, TimersAt, Buffered, SameExits;
    forall j | 0 <= j < |ls| && j != i && ex[j]
      ensures Blocked(b, ls[j], now)
    {
      assert ls[j] != ls[i];
    }
  }

  lemma {:induction false} VisitsKeep(x: Context, p: real, n: NodeId, net: NetState, ls: seq<LinkId>, j: nat, r: Round, drawn: real, now: Tick)
    requires AtNode(x, p, n, net, ls, now) && AllKnown(x, ls) && j <= |ls| == |r.ex| && ExhaustedBlocked(net, ls, r, now)
    ensures var s := Visits(x, net, ls, j, r, drawn, now);
            AtNode(x, p, n, s.0, ls, now) && ExhaustedBlocked(s.0, ls, s.1, now)
  {
    hide AtNode, VisitOne, ExhaustedBlocked, AllKnown;
    if j > 0 {
      VisitsKeep(x, p, n, net, ls, j - 1, r, drawn, now);
      var s := Visits(x, net, ls, j - 1, r, drawn, now);
      VisitOneKeeps(x, p, n, s.0, ls, j - 1, s.1, drawn, now);
    }
  }

  lemma {:induction false} RoundsKeep(x: Context, p: real, n: NodeId, net: NetState, ls: seq<LinkId>, r: Round, draws: seq<real>, now: Tick)
    requires AtNode(x, p, n, net, ls, now) && AllKnown(x, ls) && |ls| == |r.ex| && ExhaustedBlocked(net, ls, r, now)
    ensures var s := Rounds(x, net, ls, r, draws, now);
            AtNode(x, p, n, s.0, ls, now) && ExhaustedBlocked(s.0, ls, s.1, now)
    decreases |draws|
  {
    hide AtNode, Visits, ExhaustedBlocked, Share, AllKnown;
    if draws != [] {
      var k := |draws| - 1;
      RoundsKeep(x, p, n, net, ls, r, draws[..k], now);
      var s := Rounds(x, net, ls, r, draws[..k], now);
      VisitsKeep(x, p, n, s.0, ls, |ls|, s.1, Share(draws[k], s.1.avail), now);
    }
  }

  /** When the loop ends every link it looked at is blocked, if no vehicle is smaller than the nudges of one round. */
  lemma {:induction false} NothingLeft(x: Context, p: real, n: NodeId, net: NetState, ls: seq<LinkId>, draws: seq<real>, now: Tick, k: nat, l: LinkId)
    requires AtNode(x, p, n, net, ls, now) && AllKnown(x, ls) && |ls| <= k && l in ls
    requires forall l :: l in x.g.links ==> x.g.links[l].capacity >= 0.0
    requires AtLeast(net, ls, NudgesPerRound(k)) && EndsWith(x, net, ls, Opening(x, ls), draws, now)
    ensures Blocked(Rounds(x, net, ls, Opening(x, ls), draws, now).0, l, now)
  {
    QueuesHere(x, p, n, net, ls, now);
    assert ExhaustedBlocked(net, ls, Opening(x, ls), now);
    hide AtNode, Queues, AllKnown, AtLeast, EndsWith, Blocked, Opening, Rounds, NudgesPerRound;
    RoundsKeep(x, p, n, net, ls, Opening(x, ls), draws, now);
    var s := Rounds(x, net, ls, Opening(x, ls), draws, now);
    var i :| 0 <= i < |ls| && ls[i] == l;
    if !s.1.ex[i] {
      NodeInv(x, p, n, net, ls, now);
      OpenIsUsedUp(x, p, net, ls, draws, now, k, i);
      NoOfferIsBlocked(s.0, l, now);
    }
  }

  lemma {:induction false} NodeInv(x: Context, p: real, n: NodeId, net: NetState, ls: seq<LinkId>, now: Tick)
    requires AtNode(x, p, n, net, ls, now)
    ensures NetInvariant.Inv(x, p, net)
  {
  }

  // ------------------------------------------------------------------ all nodes of a partition

  /**
   * If none of the vehicles buffered on the in-links ls of a node was smaller than the nudges of
   * one round, link l has nothing left that may move.
   */
  ghost predicate Settled(start: NetState, net: NetState, l: LinkId, ls: seq<LinkId>, now: Tick)
  {
    AtLeast(start, ls, NudgesPerRound(|ls|)) ==> Blocked(net, l, now)
  }

  /** The active ones among the in-links ins, which the loop looked at, are settled. */
  lemma {:induction false} VisitedSettled(x: Context, p: real, n: NodeId, start: NetState, ins: seq<LinkId>, active: seq<LinkId>,
                                          draws: seq<real>, l: LinkId, now: Tick)
    requires AtNode(x, p, n, start, active, now) && AllKnown(x, active) && active == Among(ins, start.activeLinks) && l in active
    requires forall l :: l in x.g.links ==> x.g.links[l].capacity >= 0.0
    requires EndsWith(x, start, active, Opening(x, active), draws, now)
    ensures Settled(start, Rounds(x, start, active, Opening(x, active), draws, now).0, l, ins, now)
  {
    hide AtNode, EndsWith, Blocked, Opening, Rounds, NudgesPerRound, Among;
    AmongOf(start, ins, start.activeLinks);
    if AtLeast(start, ins, NudgesPerRound(|ins|)) {
      assert AtLeast(start, active, NudgesPerRound(|ins|));
      NothingLeft(x, p, n, start, active, draws, now, |ins|, l);
    }
  }

  /** What node n leaves behind on its in-link l, whether it looked at the link or not. */
  lemma {:induction false} InLinkSettled(x: Context, p: real, start: NetState, mid: NetState, net: NetState, ins: seq<LinkId>,
                                         active: seq<LinkId>, l: LinkId, now: Tick)
    requires NetInvariant.Inv(x, p, start) && active == Among(ins, start.activeLinks)
    requires l in ins && l in start.links && l in x.g.links
    requires l in active ==> Settled(start, mid, l, ins, now)
    requires SameExits(start, mid, active) && SameOffers(mid, net)
    requires forall m :: Blocked(mid, m, now) ==> Blocked(net, m, now)
    ensures Settled(start, net, l, ins, now)
    ensures l in net.links && (l !in active ==> !OffersVeh(net.links[l]))
  {
    hide Blocked, Buffered, SameExits, OffersVeh, Among, NetInvariant.Inv;
    SameKeys(start, mid, active);
    if l !in active {
      IdleOffersNothing(x, p, start, mid, active, l);
      NoOfferIsBlocked(net, l, now);
    }
  }

  /** What node n leaves behind on all its in-links. */
  lemma {:induction false} NodeSettles(x: Context, p: real, n: NodeId, start: NetState, mid: NetState, net: NetState, ins: seq<LinkId>,
                                       active: seq<LinkId>, draws: seq<real>, now: Tick)
    requires AtNode(x, p, n, start, active, now) && AllKnown(x, active) && active == Among(ins, start.activeLinks)
    requires forall l :: l in x.g.links ==> x.g.links[l].capacity >= 0.0
    requires forall l :: l in active ==> l in x.g.links
    requires EndsWith(x, start, active, Opening(x, active), draws, now) && mid == Rounds(x, start, active, Opening(x, active), draws, now).0
    requires forall l :: l in ins ==> l in start.links && l in x.g.links
    requires SameExits(start, mid, active) && SameOffers(mid, net)
    requires forall m :: Blocked(mid, m, now) ==> Blocked(net, m, now)
    ensures forall l :: l in ins ==> Settled(start, net, l, ins, now) && l in net.links && (l !in active ==> !OffersVeh(net.links[l]))
  {
    hide AtNode, EndsWith, Blocked, Opening, Rounds, Among, SameExits, SameOffers, Settled, OffersVeh, AllKnown;
    forall l | l in ins
      ensures Settled(start, net, l, ins, now) && l in net.links && (l !in active ==> !OffersVeh(net.links[l]))
    {
      NodeInv(x, p, n, start, active, now);
      if l in active {
        VisitedSettled(x, p, n, start, ins, active, draws, l, now);
      }
      InLinkSettled(x, p, start, mid, net, ins, active, l, now);
    }
  }

  /** The in-links of the node behind link l. */
  function Beside(x: Context, l: LinkId): (r: seq<LinkId>)
    requires EndsKnown(x.g, l)
  {
    x.g.nodes[x.g.links[l].to].inLinks
  }

  /** The nodes done have worked since start: their links are settled, and the exits of all others are as they were. */
  ghost predicate DoneSoFar(x: Context, start: NetState, net: NetState, done: set<NodeId>, now: Tick)
  {
    && start.links.Keys == net.links.Keys
    && forall l :: l in net.links ==>
         && EndsKnown(x.g, l) && start.links[l].Out? == net.links[l].Out?
         && (if x.g.links[l].to in done then Settled(start, net, l, Beside(x, l), now)
             else SameExit(start.links[l], net.links[l]))
  }

  lemma {:induction false} NodeIsDone(x: Context, start: NetState, a: NetState, b: NetState, done: set<NodeId>, n: NodeId, now: Tick)
    requires DoneSoFar(x, start, a, done, now) && OnlyAt(x, n, a, b)
    requires n in x.g.nodes && n !in done && NodeWired(x.g, n)
    requires forall l :: l in x.g.nodes[n].inLinks ==> l in x.g.links && l in a.links && Settled(a, b, l, x.g.nodes[n].inLinks, now)
    ensures DoneSoFar(x, start, b, done + {n}, now)
  {
    hide Blocked;
    var ins := x.g.nodes[n].inLinks;
    SameSizes(x, start, a, done, n, NudgesPerRound(|ins|), now);
    forall l | l in b.links
      ensures EndsKnown(x.g, l) && start.links[l].Out? == b.links[l].Out?
      ensures if x.g.links[l].to in done + {n} then Settled(start, b, l, Beside(x, l), now)
              else SameExit(start.links[l], b.links[l])
    {
      assert NoRoomMade(a.links[l], b.links[l]);
      if x.g.links[l].to == n {
        assert l in x.g.nodes[n].inLinks;
      } else {
        assert !LeadsTo(x, l, n);
        if x.g.links[l].to in done && Blocked(a, l, now) {
          OthersKeepBlocked(x, n, a, b, l, now);
        }
      }
    }
  }

  /** A node that has not worked yet finds the vehicles that were in its links' buffers at the start. */
  lemma {:induction false} SameSizes(x: Context, start: NetState, a: NetState, done: set<NodeId>, n: NodeId, m: real, now: Tick)
    requires DoneSoFar(x, start, a, done, now) && n !in done && n in x.g.nodes && NodeWired(x.g, n)
    ensures AtLeast(a, x.g.nodes[n].inLinks, m) <==> AtLeast(start, x.g.nodes[n].inLinks, m)
  {
    hide Settled;
    var ls := x.g.nodes[n].inLinks;
    assert forall l :: l in ls && l in a.links && !a.links[l].Out? ==> a.links[l].s.buffer == start.links[l].s.buffer;
  }

  lemma {:induction false} NothingDone(x: Context, p: real, net: NetState, now: Tick)
    requires NetInvariant.Inv(x, p, net)
    ensures DoneSoFar(x, net, net, {}, now)
  {
    hide NetInvariant.OnNet, NetInvariant.ActiveOk, NetInvariant.NodesOk, Settled;
    forall l | l in net.links
      ensures EndsKnown(x.g, l)
    {
      assert NetInvariant.LinkOk(x, p, l, net.links[l]);
    }
  }

  /** Once all active nodes have worked, every link is settled: inactive nodes had nothing to do. */
  lemma {:induction false} AllSettled(x: Context, p: real, start: NetState, net: NetState, l: LinkId, now: Tick)
    requires NetInvariant.Inv(x, p, start) && DoneSoFar(x, start, net, start.activeNodes, now) && l in net.links
    ensures EndsKnown(x.g, l) && Settled(start, net, l, Beside(x, l), now)
  {
    hide NetInvariant.OnNet, NetInvariant.ActiveOk, NetInvariant.LinksOk;
    if x.g.links[l].to !in start.activeNodes {
      assert !OffersVeh(start.links[l]);
      assert !OffersVeh(net.links[l]);
      NoOfferIsBlocked(net, l, now);
    }
  }
}
