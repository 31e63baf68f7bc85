/**
 * What the loop of a node rests on: taking vehicles from the buffers of a node's in-links never
 * makes room anywhere, so a link found unable to release a vehicle stays unable for the whole tick.
 */
module NodeMoves {
  import opened Basics
  import opened FlowCap
  import opened Storage
  import opened StuckTimers
  import opened LinkSpec
  import opened RoadNetwork
  import opened Links
  import opened NetSpec
  import NetInvariant

  /** No timer was started after tick t, so none is read before its start tick is reached. */
  ghost predicate TimersUpTo(net: NetState, t: Tick)
  {
    forall l :: l in net.links && !net.links[l].Out? && net.links[l].s.timer.Some? ==> net.links[l].s.timer.value <= t
  }

  /** The same for the links that lead to node n only. */
  ghost predicate TimersAt(x: Context, n: NodeId, net: NetState, t: Tick)
  {
    forall l :: l in net.links && LeadsTo(x, l, n) && !net.links[l].Out? && net.links[l].s.timer.Some? ==>
      net.links[l].s.timer.value <= t
  }

  predicate LeadsTo(x: Context, l: LinkId, n: NodeId)
  {
    l in x.g.links && x.g.links[l].to == n
  }

  /** Link l was asked and has nothing that may move: no offer, or one that is not stuck and finds no space. */
  predicate Blocked(net: NetState, l: LinkId, now: Tick)
  {
    MoveIsDefined(net, l) ==>
      var s := net.links[l].s;
      && s.timer.Some? && s.timer.value <= now
      && !Stuck(s.timer, s.attr.threshold, now)
      && !Available(StorageOf(net.links[NextOf(net, l)]))
  }

  /** The flow capacity per tick of link l. */
  function CapOf(x: Context, l: LinkId): (r: real)
    requires ValidConfig(x.c) && l in x.g.links
  {
    FreshLink(x.g.links[l], x.c).flow.perTick
  }

  // ------------------------------------------------------------------ what a node's actions keep

  /** The same link, with the same attributes and with no storage released. */
  ghost predicate NoRoomMade(a: SimLinkState, b: SimLinkState)
  {
    && a.Out? == b.Out? && a.In? == b.In?
    && StorageOf(a).max == StorageOf(b).max && StorageOf(a).used <= StorageOf(b).used
    && (!a.Out? ==> a.s.attr == b.s.attr)
  }

  /** The downstream end of the link is untouched. */
  ghost predicate SameExit(a: SimLinkState, b: SimLinkState)
  {
    !a.Out? && !b.Out? ==> a.s.buffer == b.s.buffer && a.s.flow == b.s.flow && a.s.timer == b.s.timer
  }

  /** From a to b, only the exits of links that lead to node n changed, and no link made room. */
  ghost predicate OnlyAt(x: Context, n: NodeId, a: NetState, b: NetState)
  {
    && a.links.Keys == b.links.Keys
    && a.activeNodes == b.activeNodes && a.vehCounter == b.vehCounter
    && (forall l :: l in a.links ==> NoRoomMade(a.links[l], b.links[l]))
    && (forall l :: l in a.links && !LeadsTo(x, l, n) ==> SameExit(a.links[l], b.links[l]))
  }

  lemma {:induction false} OnlyAtTrans(x: Context, n: NodeId, a: NetState, b: NetState, c: NetState)
    requires OnlyAt(x, n, a, b) && OnlyAt(x, n, b, c)
    ensures OnlyAt(x, n, a, c)
  {
    forall l | l in a.links
      ensures NoRoomMade(a.links[l], c.links[l])
      ensures !LeadsTo(x, l, n) ==> SameExit(a.links[l], c.links[l])
    {
      assert NoRoomMade(a.links[l], b.links[l]) && NoRoomMade(b.links[l], c.links[l]);
    }
  }

  lemma {:induction false} LookOnlyAt(x: Context, net: NetState, l: LinkId, t: Tick)
    requires Enabled(x, net, Look(l, t)) && l in x.g.links
    ensures OnlyAt(x, x.g.links[l].to, net, Apply(x, net, Look(l, t)))
  {
  }

  lemma {:induction false} MoveOnlyAt(x: Context, p: real, net: NetState, l: LinkId, now: Tick)
    requires NetInvariant.Inv(x, p, net) && Enabled(x, net, Move(l, now)) && l in x.g.links
    ensures OnlyAt(x, x.g.links[l].to, net, Apply(x, net, Move(l, now)))
  {
    hide NetInvariant.LinkOk, NetInvariant.Placed, NetInvariant.OnNet, NetInvariant.ActiveOk, NetInvariant.NodesOk;
    NetInvariant.MovedIsPlaced(x, p, net, l);
    hide NetInvariant.Inv;
    MoveParts(net, l, now);
    var r := MoveVehicle(net, l, now);
    hide MoveVehicle;
    forall k | k in net.links
      ensures NoRoomMade(net.links[k], r.links[k]) && (k != l ==> SameExit(net.links[k], r.links[k]))
    {
    }
  }

  /** What a move does to each link. */
  lemma {:induction false} MoveParts(net: NetState, l: LinkId, now: Tick)
    requires MoveIsDefined(net, l)
    ensures var r := MoveVehicle(net, l, now);
            var v, n := net.links[l].s.buffer[0].LeftLink(), NextOf(net, l);
            && r.links.Keys == net.links.Keys && r.activeNodes == net.activeNodes && r.vehCounter == net.vehCounter
            && !r.links[l].Out? && r.links[l].In? == net.links[l].In?
            && r.links[l].s.buffer == net.links[l].s.buffer[1..] && r.links[l].s.timer == None
            && r.links[l].s.attr == net.links[l].s.attr
            && (n != l ==> r.links[l].s.storage == net.links[l].s.storage && r.links[n] == Push(net.links[n], v, now))
            && (n == l ==> r.links[l].s.storage == net.links[l].s.storage.(used := net.links[l].s.storage.used + v.pce))
            && (forall k :: k in net.links && k != l && k != n ==> r.links[k] == net.links[k])
  {
    hide TravelTicks;
  }

  /** As long as no room is made and its exit is left alone, a link stays blocked. */
  lemma {:induction false} StaysBlocked(a: NetState, b: NetState, l: LinkId, now: Tick)
    requires a.links.Keys == b.links.Keys && forall k :: k in a.links ==> NoRoomMade(a.links[k], b.links[k])
    requires l in a.links ==> SameExit(a.links[l], b.links[l])
    requires Blocked(a, l, now)
    ensures Blocked(b, l, now)
  {
    if MoveIsDefined(b, l) {
      assert NoRoomMade(a.links[l], b.links[l]) && SameExit(a.links[l], b.links[l]);
      assert NoRoomMade(a.links[NextOf(b, l)], b.links[NextOf(b, l)]);
      assert MoveIsDefined(a, l);
    }
  }

  /** Other nodes cannot unblock a link. */
  lemma {:induction false} OthersKeepBlocked(x: Context, n: NodeId, a: NetState, b: NetState, l: LinkId, now: Tick)
    requires OnlyAt(x, n, a, b) && !LeadsTo(x, l, n) && Blocked(a, l, now)
    ensures Blocked(b, l, now)
  {
    hide Blocked, SameExit, NoRoomMade;
    StaysBlocked(a, b, l, now);
  }

  /** Having asked link l, it may release its offer or it is blocked. */
  lemma {:induction false} AskedOrBlocked(x: Context, net: NetState, l: LinkId, now: Tick)
    requires Enabled(x, net, Look(l, now)) && (net.links[l].s.timer.Some? ==> net.links[l].s.timer.value <= now)
    ensures var r := Apply(x, net, Look(l, now));
            ShouldMove(r, l, now) || Blocked(r, l, now)
  {
  }

  lemma {:induction false} LookKeepsBlocked(x: Context, net: NetState, m: LinkId, t: Tick, l: LinkId, now: Tick)
    requires Enabled(x, net, Look(m, t)) && Blocked(net, l, now)
    ensures Blocked(Apply(x, net, Look(m, t)), l, now)
  {
    var r := Apply(x, net, Look(m, t));
    if MoveIsDefined(r, l) {
      assert MoveIsDefined(net, l);
    }
  }

  /** A move from another link, even of the same node, makes no room and leaves the exit of l alone. */
  lemma {:induction false} MoveKeepsBlocked(x: Context, p: real, net: NetState, m: LinkId, l: LinkId, now: Tick)
    requires NetInvariant.Inv(x, p, net) && Enabled(x, net, Move(m, now)) && m != l && m in x.g.links
    requires Blocked(net, l, now)
    ensures Blocked(Apply(x, net, Move(m, now)), l, now)
  {
    var r := Apply(x, net, Move(m, now));
    MoveOnlyAt(x, p, net, m, now);
    MoveParts(net, m, now);
    hide NetInvariant.Inv, MoveVehicle, TravelTicks, NoRoomMade, Blocked;
    StaysBlocked(net, r, l, now);
  }

  lemma {:induction false} LookKeepsTimers(x: Context, net: NetState, l: LinkId, t: Tick, n: NodeId, bound: Tick)
    requires Enabled(x, net, Look(l, t)) && t <= bound
    ensures TimersAt(x, n, net, bound) ==> TimersAt(x, n, Apply(x, net, Look(l, t)), bound)
    ensures TimersUpTo(net, bound) ==> TimersUpTo(Apply(x, net, Look(l, t)), bound)
  {
  }

  lemma {:induction false} MoveKeepsTimers(x: Context, net: NetState, l: LinkId, now: Tick, n: NodeId, bound: Tick)
    requires Enabled(x, net, Move(l, now))
    ensures TimersAt(x, n, net, bound) ==> TimersAt(x, n, Apply(x, net, Move(l, now)), bound)
    ensures TimersUpTo(net, bound) ==> TimersUpTo(Apply(x, net, Move(l, now)), bound)
  {
    MoveParts(net, l, now);
    hide MoveVehicle, TravelTicks;
  }

  lemma {:induction false} OthersKeepTimers(x: Context, n: NodeId, a: NetState, b: NetState, m: NodeId, bound: Tick)
    requires OnlyAt(x, n, a, b) && m != n && TimersAt(x, m, a, bound)
    ensures TimersAt(x, m, b, bound)
  {
    forall l | l in b.links && LeadsTo(x, l, m) && !b.links[l].Out? && b.links[l].s.timer.Some?
      ensures b.links[l].s.timer.value <= bound
    {
      assert !LeadsTo(x, l, n) && SameExit(a.links[l], b.links[l]) && NoRoomMade(a.links[l], b.links[l]);
    }
  }

  // ------------------------------------------------------------------ the work of one node

  /** What node n has done since state start: a legal run that touched only the exits of its in-links. */
  ghost predicate NodeRun(x: Context, p: real, n: NodeId, now: Tick, start: NetState, net: NetState, acts: seq<NetAction>)
  {
    && net == Run(x, start, acts) && Legal(x, start, acts)
    && NetInvariant.Inv(x, p, net)
    && OnlyAt(x, n, start, net)
    && (forall a :: a in acts ==> a.Look? || (a.Move? && a.now == now))
  }

  lemma {:induction false} NodeRunStart(x: Context, p: real, n: NodeId, now: Tick, net: NetState)
    requires NetInvariant.Inv(x, p, net)
    ensures NodeRun(x, p, n, now, net, net, [])
  {
    hide NetInvariant.Inv;
  }

  lemma {:induction false} NodeRunStep(x: Context, p: real, n: NodeId, now: Tick, start: NetState, net: NetState, acts: seq<NetAction>, a: NetAction)
    requires NodeRun(x, p, n, now, start, net, acts) && (a.Look? || (a.Move? && a.now == now)) && LeadsTo(x, a.l, n) && Enabled(x, net, a)
    ensures NodeRun(x, p, n, now, start, Apply(x, net, a), acts + [a])
  {
    NetInvariant.ApplyKeepsInv(x, p, net, a);
    if a.Look? {
      LookOnlyAt(x, net, a.l, a.t);
    } else {
      MoveOnlyAt(x, p, net, a.l, a.now);
    }
    hide NetInvariant.Inv, Enabled, Apply;
    OnlyAtTrans(x, n, start, net, Apply(x, net, a));
    RunSnoc(x, start, acts, a);
  }

  // ------------------------------------------------------------------ buffered vehicles

  function BufferSize(net: NetState, l: LinkId): (r: nat)
  {
    if l in net.links && !net.links[l].Out? then |net.links[l].s.buffer| else 0
  }

  /** The number of vehicles in the buffers of the links ls. */
  function Buffered(net: NetState, ls: seq<LinkId>): (r: nat)
  {
    if ls == [] then 0 else BufferSize(net, ls[0]) + Buffered(net, ls[1..])
  }

  lemma {:induction false} BufferedLess(a: NetState, b: NetState, ls: seq<LinkId>)
    requires forall l :: l in ls ==> BufferSize(b, l) <= BufferSize(a, l)
    ensures Buffered(b, ls) <= Buffered(a, ls)
    ensures (exists l :: l in ls && BufferSize(b, l) < BufferSize(a, l)) ==> Buffered(b, ls) < Buffered(a, ls)
  {
    if ls != [] {
      hide BufferSize;
      assert ls[0] in ls && forall l :: l in ls[1..] ==> l in ls;
      BufferedLess(a, b, ls[1..]);
      if l :| l in ls && BufferSize(b, l) < BufferSize(a, l) {
        assert l == ls[0] || l in ls[1..];
      }
    }
  }

  lemma {:induction false} LookBuffered(x: Context, net: NetState, l: LinkId, t: Tick, ls: seq<LinkId>)
    requires Enabled(x, net, Look(l, t))
    ensures Buffered(Apply(x, net, Look(l, t)), ls) <= Buffered(net, ls)
  {
    BufferedLess(net, Apply(x, net, Look(l, t)), ls);
  }

  /** A move takes one vehicle from a buffer and puts none into any. */
  lemma {:induction false} MoveBuffered(x: Context, net: NetState, l: LinkId, now: Tick, ls: seq<LinkId>)
    requires Enabled(x, net, Move(l, now)) && l in ls
    ensures Buffered(Apply(x, net, Move(l, now)), ls) < Buffered(net, ls)
  {
    MoveParts(net, l, now);
    var r := Apply(x, net, Move(l, now));
    hide MoveVehicle, TravelTicks;
    assert BufferSize(r, l) < BufferSize(net, l);
    BufferedLess(net, r, ls);
  }

  /** The elements of ls that are in the set s, in order. */
  function Among(ls: seq<LinkId>, s: set<LinkId>): (r: seq<LinkId>)
    ensures forall l :: l in r <==> l in ls && l in s
  {
    if ls == [] then [] else (if ls[0] in s then [ls[0]] else []) + Among(ls[1..], s)
  }

  lemma {:induction false} AmongOf(net: NetState, ls: seq<LinkId>, s: set<LinkId>)
    ensures |Among(ls, s)| <= |ls| && Buffered(net, Among(ls, s)) <= Buffered(net, ls)
  {
    if ls != [] {
      var rest := Among(ls[1..], s);
      hide BufferSize;
      AmongOf(net, ls[1..], s);
      assert ([ls[0]] + rest)[1..] == rest;
      assert [] + rest == rest;
    }
  }

  lemma {:induction false} AmongOnce(ls: seq<LinkId>, s: set<LinkId>)
    requires NoDuplicates(ls)
    ensures NoDuplicates(Among(ls, s))
  {
    if ls != [] {
      var rest := Among(ls[1..], s);
      OnceInRest(ls);
      AmongOnce(ls[1..], s);
      hide NoDuplicates;
      OnceInFront(ls[0], rest);
      assert [] + rest == rest;
    }
  }

  lemma {:induction false} OnceInRest(ls: seq<LinkId>)
    requires NoDuplicates(ls) && ls != []
    ensures NoDuplicates(ls[1..]) && ls[0] !in ls[1..]
  {
    assert forall i :: 0 <= i < |ls[1..]| ==> ls[1..][i] == ls[i + 1];
  }

  lemma {:induction false} OnceInFront(l: LinkId, ls: seq<LinkId>)
    requires NoDuplicates(ls) && l !in ls
    ensures NoDuplicates([l] + ls)
  {
    assert forall i :: 0 < i < |[l] + ls| ==> ([l] + ls)[i] == ls[i - 1] && ls[i - 1] in ls;
  }

  lemma {:induction false} AmongSnoc(ls: seq<LinkId>, l: LinkId, s: set<LinkId>)
    ensures Among(ls + [l], s) == Among(ls, s) + (if l in s then [l] else [])
  {
    if ls == [] {
      assert [] + [l] == [l];
      assert Among([l], s) == (if l in s then [l] else []) + Among([l][1..], s);
    } else {
      assert (ls + [l])[1..] == ls[1..] + [l];
      AmongSnoc(ls[1..], l, s);
    }
  }

  // ------------------------------------------------------------------ open capacity

  /** The capacity of those among the first j links that are not exhausted. */
  function OpenCap(caps: seq<real>, ex: seq<bool>, j: nat): (r: real)
    requires |caps| == |ex| && j <= |caps|
  {
    if j == 0 then 0.0 else OpenCap(caps, ex, j - 1) + (if ex[j - 1] then 0.0 else caps[j - 1])
  }

  function OpenCount(ex: seq<bool>, j: nat): (r: nat)
    requires j <= |ex|
    ensures r <= j
  {
    if j == 0 then 0 else OpenCount(ex, j - 1) + (if ex[j - 1] then 0 else 1)
  }

  ghost predicate NoneNegative(caps: seq<real>)
  {
    forall i :: 0 <= i < |caps| ==> caps[i] >= 0.0
  }

  /** Marking link i as exhausted takes exactly its capacity away. */
  lemma {:induction false} MarkExhausted(caps: seq<real>, ex: seq<bool>, i: nat, j: nat)
    requires |caps| == |ex| && i < |ex| && j <= |ex| && !ex[i]
    ensures OpenCap(caps, ex[i := true], j) == OpenCap(caps, ex, j) - (if i < j then caps[i] else 0.0)
    ensures OpenCount(ex[i := true], j) == OpenCount(ex, j) - (if i < j then 1 else 0)
  {
    if j > 0 {
      MarkExhausted(caps, ex, i, j - 1);
    }
  }

  lemma {:induction false} OpenCapBounds(caps: seq<real>, ex: seq<bool>, j: nat)
    requires |caps| == |ex| && j <= |ex| && NoneNegative(caps)
    ensures OpenCap(caps, ex, j) >= 0.0
    ensures OpenCap(caps, ex, j) > 0.0 ==> exists i :: 0 <= i < j && !ex[i]
    ensures forall i :: 0 <= i < j && !ex[i] ==> caps[i] <= OpenCap(caps, ex, j)
  {
    if j > 0 {
      OpenCapBounds(caps, ex, j - 1);
    }
  }

  lemma {:induction false} AllOpen(caps: seq<real>, ex: seq<bool>, j: nat)
    requires |caps| == |ex| && j <= |ex| && forall i :: 0 <= i < |ex| ==> !ex[i]
    ensures OpenCount(ex, j) == j
    ensures j > 0 ==> OpenCap(caps, ex, j) == OpenCap(caps, ex, j - 1) + caps[j - 1]
  {
    if j > 0 {
      AllOpen(caps, ex, j - 1);
    }
  }

  /** A draw in [0, 1) of what is available stays below it. */
  lemma {:induction false} DrawBelow(r: real, avail: real)
    requires 0.0 <= r < 1.0 && avail > 0.0
    ensures 0.0 <= r * avail < avail
  {
    assert (1.0 - r) * avail > 0.0;
  }

  ghost function Caps(x: Context, ls: seq<LinkId>): (r: seq<real>)
    requires ValidConfig(x.c) && forall l :: l in ls ==> l in x.g.links
    ensures |r| == |ls| && forall i :: 0 <= i < |ls| ==> r[i] == CapOf(x, ls[i])
  {
    seq(|ls|, i requires 0 <= i < |ls| => CapOf(x, ls[i]))
  }

  /** A link's capacity per tick never changes and is not negative. */
  lemma {:induction false} CapIsFixed(x: Context, p: real, net: NetState, l: LinkId)
    requires NetInvariant.Inv(x, p, net) && l in net.links && !net.links[l].Out?
    requires l in x.g.links && x.g.links[l].capacity >= 0.0
    ensures CapOf(x, l) == net.links[l].s.flow.perTick && CapOf(x, l) >= 0.0
  {
    assert NetInvariant.LinkOk(x, p, l, net.links[l]);
    NetInvariant.FreshRates(x.g.links[l], x.c);
  }

  // ------------------------------------------------------------------ one visit of one link

  /** What a look at, or a move from, one link l of node n keeps. */
  ghost predicate Visited(x: Context, p: real, n: NodeId, ls: seq<LinkId>, l: LinkId, now: Tick, a: NetState, b: NetState)
  {
    && TimersAt(x, n, b, now)
    && Buffered(b, ls) <= Buffered(a, ls)
    && (forall m :: m != l && Blocked(a, m, now) ==> Blocked(b, m, now))
    && SameExits(a, b, [l])
  }

  /** Only the exits of the links ls may have changed. */
  ghost predicate SameExits(a: NetState, b: NetState, ls: seq<LinkId>)
  {
    && a.links.Keys == b.links.Keys
    && forall m :: m in a.links && m !in ls ==> SameExit(a.links[m], b.links[m]) && a.links[m].Out? == b.links[m].Out?
  }

  lemma {:induction false} SameExitsTrans(a: NetState, b: NetState, c: NetState, ls: seq<LinkId>, l: LinkId)
    requires SameExits(a, b, ls) && SameExits(b, c, [l]) && l in ls
    ensures SameExits(a, c, ls)
  {
    forall m | m in a.links && m !in ls
      ensures SameExit(a.links[m], c.links[m]) && a.links[m].Out? == c.links[m].Out?
    {
      assert m !in [l];
    }
  }

  lemma {:induction false} LookVisits(x: Context, p: real, n: NodeId, ls: seq<LinkId>, net: NetState, l: LinkId, now: Tick)
    requires Enabled(x, net, Look(l, now)) && LeadsTo(x, l, n) && TimersAt(x, n, net, now)
    ensures var r := Apply(x, net, Look(l, now));
            Visited(x, p, n, ls, l, now, net, r) && (ShouldMove(r, l, now) || Blocked(r, l, now))
  {
    var r := Apply(x, net, Look(l, now));
    LookKeepsTimers(x, net, l, now, n, now);
    LookBuffered(x, net, l, now, ls);
    AskedOrBlocked(x, net, l, now);
    assert SameExits(net, r, [l]);
    hide Blocked, Enabled, Apply, TimersAt, Buffered, SameExits;
    forall m | m != l && Blocked(net, m, now)
      ensures Blocked(r, m, now)
    {
      LookKeepsBlocked(x, net, l, now, m, now);
    }
  }

  lemma {:induction false} MoveSameExits(x: Context, net: NetState, l: LinkId, now: Tick)
    requires Enabled(x, net, Move(l, now))
    ensures SameExits(net, Apply(x, net, Move(l, now)), [l])
  {
    MoveParts(net, l, now);
    hide MoveVehicle, TravelTicks;
  }

  lemma {:induction false} MoveVisits(x: Context, p: real, n: NodeId, ls: seq<LinkId>, net: NetState, l: LinkId, now: Tick)
    requires NetInvariant.Inv(x, p, net) && Enabled(x, net, Move(l, now)) && LeadsTo(x, l, n) && l in ls
    requires TimersAt(x, n, net, now)
    ensures var r := Apply(x, net, Move(l, now));
            Visited(x, p, n, ls, l, now, net, r) && Buffered(r, ls) < Buffered(net, ls)
  {
    hide Blocked, Enabled, Apply, TimersAt, Buffered, NetInvariant.Inv, SameExits;
    var r := Apply(x, net, Move(l, now));
    MoveSameExits(x, net, l, now);
    MoveKeepsTimers(x, net, l, now, n, now);
    MoveBuffered(x, net, l, now, ls);
    forall m | m != l && Blocked(net, m, now)
      ensures Blocked(r, m, now)
    {
      MoveKeepsBlocked(x, p, net, l, m, now);
    }
  }

  // ------------------------------------------------------------------ the rounds of a node's loop

  /** The state of the loop between two links: capacity left to draw from, capacity passed, exhausted links. */
  datatype Round = Round(avail: real, sel: real, ex: seq<bool>)

  /** Exhausted links are blocked, and what is available is what the others have, less the nudges. */
  ghost predicate RoundOk(x: Context, net: NetState, ls: seq<LinkId>, caps: seq<real>, r: Round, nudges: nat, now: Tick)
  {
    && |caps| == |ls| == |r.ex| && r.sel >= 0.0
    && r.avail + 0.000001 * nudges as real == OpenCap(caps, r.ex, |ls|)
    && (forall i :: 0 <= i < |ls| && r.ex[i] ==> Blocked(net, ls[i], now))
  }

  /** The measure of the loop: every round takes a vehicle from a buffer or exhausts a link. */
  ghost function Todo(net: NetState, ls: seq<LinkId>, ex: seq<bool>): (r: nat)
  {
    Buffered(net, ls) + OpenCount(ex, |ex|)
  }

  /**
   * As long as a round took no vehicle and exhausted no link, every open link before j was passed
   * with its capacity added, and none of the sums reached the draw.
   */
  ghost predicate Fruitless(caps: seq<real>, before: Round, r: Round, drawn: real, j: nat)
    requires |caps| == |before.ex| && j <= |caps|
  {
    && r.ex == before.ex
    && r.sel >= OpenCap(caps, before.ex, j)
    && ((exists i :: 0 <= i < j && !before.ex[i]) ==> r.sel < drawn)
  }

  /** A whole round cannot be fruitless: the draw is below the capacity of the open links. */
  lemma {:induction false} NoFruitlessRound(x: Context, net: NetState, ls: seq<LinkId>, caps: seq<real>, before: Round, r: Round,
                                            nudges: nat, now: Tick, drawn: real)
    requires RoundOk(x, net, ls, caps, before, nudges, now) && NoneNegative(caps)
    requires 0.0 < before.avail && drawn < before.avail
    ensures !Fruitless(caps, before, r, drawn, |caps|)
  {
    OpenCapBounds(caps, before.ex, |caps|);
  }

  lemma {:induction false} PassExhausted(x: Context, net: NetState, ls: seq<LinkId>, caps: seq<real>, r: Round, nudges: nat, now: Tick)
    requires RoundOk(x, net, ls, caps, r, nudges, now)
    ensures RoundOk(x, net, ls, caps, r.(avail := r.avail - 0.000001), nudges + 1, now)
  {
    hide Blocked;
  }

  /** An open link that may release its vehicle was passed, and moved it if the sum reached the draw. */
  lemma {:induction false} PassOpen(x: Context, p: real, n: NodeId, a: NetState, b: NetState, ls: seq<LinkId>, caps: seq<real>,
                                    r: Round, nudges: nat, i: nat, now: Tick)
    requires RoundOk(x, a, ls, caps, r, nudges, now) && i < |ls| && !r.ex[i] && caps[i] >= 0.0
    requires NoDuplicates(ls) && Visited(x, p, n, ls, ls[i], now, a, b)
    ensures RoundOk(x, b, ls, caps, r.(sel := r.sel + caps[i]), nudges, now)
  {
    hide Blocked, TimersAt, Buffered;
    forall j | 0 <= j < |ls| && r.ex[j]
      ensures Blocked(b, ls[j], now)
    {
      assert ls[j] != ls[i];
    }
  }

  /** An open link that is blocked becomes exhausted and takes its capacity away. */
  lemma {:induction false} PassBlocked(x: Context, p: real, n: NodeId, a: NetState, b: NetState, ls: seq<LinkId>, caps: seq<real>,
                                       r: Round, nudges: nat, i: nat, now: Tick)
    requires RoundOk(x, a, ls, caps, r, nudges, now) && i < |ls| && !r.ex[i]
    requires NoDuplicates(ls) && Visited(x, p, n, ls, ls[i], now, a, b) && Blocked(b, ls[i], now)
    ensures RoundOk(x, b, ls, caps, r.(avail := r.avail - caps[i], ex := r.ex[i := true]), nudges, now)
    ensures Todo(b, ls, r.ex[i := true]) < Todo(a, ls, r.ex)
  {
    hide Blocked, TimersAt, Buffered;
    MarkExhausted(caps, r.ex, i, |ls|);
    forall j | 0 <= j < |ls| && r.ex[i := true][j]
      ensures Blocked(b, ls[j], now)
    {
      assert j != i ==> ls[j] != ls[i];
    }
  }

  /** The next link does not change what a fruitless round has seen so far. */
  lemma {:induction false} StillFruitless(caps: seq<real>, before: Round, r: Round, r1: Round, drawn: real, j: nat)
    requires |caps| == |before.ex| && j < |caps| && Fruitless(caps, before, r, drawn, j) && r1.ex == r.ex
    requires if r.ex[j] then r1.sel == r.sel else r1.sel == r.sel + caps[j] < drawn
    ensures Fruitless(caps, before, r1, drawn, j + 1)
  {
  }

  lemma {:induction false} FruitlessStart(caps: seq<real>, before: Round, drawn: real)
    requires |caps| == |before.ex| && before.sel >= 0.0
    ensures Fruitless(caps, before, before, drawn, 0)
  {
  }

  lemma {:induction false} TodoAfter(a: NetState, b: NetState, ls: seq<LinkId>, ex: seq<bool>)
    requires Buffered(b, ls) <= Buffered(a, ls)
    ensures Todo(b, ls, ex) <= Todo(a, ls, ex)
    ensures Buffered(b, ls) < Buffered(a, ls) ==> Todo(b, ls, ex) < Todo(a, ls, ex)
  {
  }

  lemma {:induction false} SameExitsChain(a: NetState, b: NetState, c: NetState, ls: seq<LinkId>)
    requires SameExits(a, b, ls) && SameExits(b, c, ls)
    ensures SameExits(a, c, ls)
  {
  }

  lemma {:induction false} SameExitsRefl(a: NetState, ls: seq<LinkId>)
    ensures SameExits(a, a, ls)
  {
  }

  lemma {:induction false} OpenCapSnoc(caps: seq<real>, ex: seq<bool>, c: real, e: bool, j: nat)
    requires |caps| == |ex| && j <= |caps|
    ensures OpenCap(caps + [c], ex + [e], j) == OpenCap(caps, ex, j)
    ensures OpenCap(caps + [c], ex + [e], |caps| + 1) == OpenCap(caps + [c], ex + [e], |caps|) + (if e then 0.0 else c)
  {
    if j > 0 {
      OpenCapSnoc(caps, ex, c, e, j - 1);
    }
  }

  /** At the start of a tick no link is exhausted. */
  function NoneExhausted(k: nat): (ex: seq<bool>)
    ensures |ex| == k && forall i :: 0 <= i < k ==> !ex[i]
  {
    seq(k, i => false)
  }

  lemma {:induction false} StartCap(x: Context, ls: seq<LinkId>, l: LinkId)
    requires ValidConfig(x.c) && (forall k :: k in ls ==> k in x.g.links) && l in x.g.links
    ensures OpenCap(Caps(x, ls + [l]), NoneExhausted(|ls| + 1), |ls| + 1) ==
            OpenCap(Caps(x, ls), NoneExhausted(|ls|), |ls|) + CapOf(x, l)
  {
    hide CapOf, OpenCap;
    assert Caps(x, ls + [l]) == Caps(x, ls) + [CapOf(x, l)];
    assert NoneExhausted(|ls| + 1) == NoneExhausted(|ls|) + [false];
    OpenCapSnoc(Caps(x, ls), NoneExhausted(|ls|), CapOf(x, l), false, |ls|);
  }

  lemma {:induction false} FirstRound(x: Context, net: NetState, ls: seq<LinkId>, now: Tick)
    requires ValidConfig(x.c) && forall k :: k in ls ==> k in x.g.links
    ensures var caps, ex := Caps(x, ls), NoneExhausted(|ls|);
            && RoundOk(x, net, ls, caps, Round(OpenCap(caps, ex, |ls|), 0.0, ex), 0, now)
            && Todo(net, ls, ex) == Buffered(net, ls) + |ls|
  {
    hide CapOf, OpenCap, Blocked, Buffered;
    AllOpen(Caps(x, ls), NoneExhausted(|ls|), |ls|);
  }

  /** Timers of the whole partition, from those of node n's links and those that did not change. */
  lemma {:induction false} TimersTogether(x: Context, n: NodeId, a: NetState, b: NetState, t: Tick)
    requires OnlyAt(x, n, a, b) && TimersUpTo(a, t) && TimersAt(x, n, b, t)
    ensures TimersUpTo(b, t)
  {
    forall l | l in b.links && !b.links[l].Out? && b.links[l].s.timer.Some?
      ensures b.links[l].s.timer.value <= t
    {
      assert NoRoomMade(a.links[l], b.links[l]);
      if !LeadsTo(x, l, n) {
        assert SameExit(a.links[l], b.links[l]);
      }
    }
  }

  lemma {:induction false} TimersLater(x: Context, n: NodeId, net: NetState, t: Tick, t1: Tick)
    requires TimersAt(x, n, net, t) && t <= t1
    ensures TimersAt(x, n, net, t1)
  {
  }

  /** A link on which no vehicle is has nothing to offer, before and after its exit was left alone. */
  lemma {:induction false} IdleOffersNothing(x: Context, p: real, a: NetState, b: NetState, ls: seq<LinkId>, l: LinkId)
    requires NetInvariant.Inv(x, p, a) && SameExits(a, b, ls) && l !in ls && l in a.links && l !in a.activeLinks
    ensures l in b.links && !OffersVeh(b.links[l])
  {
    assert Contents(a.links[l]) == [];
    if !a.links[l].Out? {
      NetInvariant.ActiveMeansContents(a.links[l].s);
    }
  }

  lemma {:induction false} NoOfferIsBlocked(net: NetState, l: LinkId, now: Tick)
    requires l in net.links && !OffersVeh(net.links[l])
    ensures Blocked(net, l, now)
  {
  }

  ghost predicate SameOffers(a: NetState, b: NetState)
  {
    a.links.Keys == b.links.Keys && forall l :: l in a.links ==> OffersVeh(a.links[l]) == OffersVeh(b.links[l])
  }

  lemma {:induction false} SameKeys(a: NetState, b: NetState, ls: seq<LinkId>)
    requires SameExits(a, b, ls)
    ensures a.links.Keys == b.links.Keys
  {
  }

  // ------------------------------------------------------------------ all nodes of a partition

  /** A node's actions neither read nor write the set of active nodes. */
  lemma {:induction false} ApplyIgnoresNodes(x: Context, net: NetState, a: NetAction, s: set<NodeId>)
    requires a.Look? || a.Move?
    ensures Apply(x, net.(activeNodes := s), a) == Apply(x, net, a).(activeNodes := s)
    ensures Enabled(x, net.(activeNodes := s), a) == Enabled(x, net, a)
  {
    hide TravelTicks, Pop, Push;
  }

  lemma {:induction false} RunIgnoresNodes(x: Context, net: NetState, acts: seq<NetAction>, s: set<NodeId>)
    requires forall a :: a in acts ==> a.Look? || a.Move?
    ensures Run(x, net.(activeNodes := s), acts) == Run(x, net, acts).(activeNodes := s)
    ensures Legal(x, net.(activeNodes := s), acts) == Legal(x, net, acts)
  {
    hide Apply, Enabled;
    if acts != [] {
      var front, a := acts[..|acts| - 1], acts[|acts| - 1];
      assert a in acts && forall b :: b in front ==> b in acts;
      RunIgnoresNodes(x, net, front, s);
      ApplyIgnoresNodes(x, Run(x, net, front), a, s);
    }
  }

  lemma {:induction false} TimersOfAll(x: Context, n: NodeId, net: NetState, t: Tick)
    requires TimersUpTo(net, t)
    ensures TimersAt(x, n, net, t)
  {
  }

  lemma {:induction false} TimersUpToLater(net: NetState, t: Tick, t1: Tick)
    requires TimersUpTo(net, t) && t <= t1
    ensures TimersUpTo(net, t1)
  {
  }

  /** No link that leads to node n offers a vehicle. */
  ghost predicate NothingOffered(x: Context, net: NetState, n: NodeId)
  {
    forall l :: l in net.links && LeadsTo(x, l, n) ==> !OffersVeh(net.links[l])
  }

  lemma {:induction false} SameOffersAt(x: Context, n: NodeId, a: NetState, b: NetState, m: NodeId)
    requires OnlyAt(x, n, a, b) && m != n
    ensures NothingOffered(x, a, m) <==> NothingOffered(x, b, m)
  {
    forall l | l in a.links && LeadsTo(x, l, m)
      ensures OffersVeh(a.links[l]) == OffersVeh(b.links[l])
    {
      assert !LeadsTo(x, l, n) && SameExit(a.links[l], b.links[l]) && NoRoomMade(a.links[l], b.links[l]);
    }
  }
}
