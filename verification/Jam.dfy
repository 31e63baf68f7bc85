/**
 * The condition under which a node settles its links is exact, also for the states that a run
 * reaches. The witness is a run: vehicles depart on n links that lead to the same node, of which
 * only the last has any flow capacity.
 */
module Jams {
  import opened Basics
  import opened FlowCap
  import opened Storage
  import opened StuckTimers
  import opened LinkSpec
  import LinkRuns
  import opened RoadNetwork
  import opened Links
  import opened NetSpec
  import opened NodeMoves
  import opened NodeLoop
  import opened NodeLimit
  import NetInvariant
  import Projection
  import Partition
  import FullScan

  // ------------------------------------------------------------------ the network

  /** The ids below n, in order. */
  function Below(n: nat): (r: seq<LinkId>)
    ensures |r| == n && forall i :: 0 <= i < n ==> r[i] == i
  {
    seq(n, i => i)
  }

  lemma {:induction false} BelowHas(n: nat)
    ensures forall l: LinkId :: l in Below(n) <==> l < n
  {
    forall l: LinkId | l < n
      ensures l in Below(n)
    {
      assert Below(n)[l] == l;
    }
  }

  /** The ids up to n. */
  function UpTo(n: nat): (r: seq<LinkId>)
  {
    Below(n) + [n]
  }

  lemma {:induction false} UpToHas(n: nat)
    ensures forall l: LinkId :: l in UpTo(n) <==> l <= n
  {
    BelowHas(n);
    hide Below;
  }

  /** The links below n lead from node 0 to node 1, and link n leads on to node 2. Only the last in-link has any capacity. */
  function Roads(n: nat, m: real, k: nat): (g: RoadNet)
  {
    RoadNet(
      map[0 := Node([], Below(n), 0), 1 := Node(Below(n), [n], 0), 2 := Node([n], [], 0)],
      map l | l in UpTo(n) ::
        if l == n then NetLink(1, 2, Times(k + 2, m), 0.0, 1.0, 1.0, 0)
        else NetLink(0, 1, 1.0, if l == n - 1 then 3600.0 * Times(k, Fee(true, n)) else 0.0, 1.0, 1.0, 0))
  }

  function Place(n: nat, m: real, k: nat): (x: Context)
  {
    Context(Roads(n, m, k), Config(1, 1.0, 1.0, 10), 0)
  }

  lemma {:induction false} RoadsAre(n: nat, m: real, k: nat)
    ensures var g := Roads(n, m, k);
            && g.nodes.Keys == {0, 1, 2} && (forall b :: b in g.nodes ==> g.nodes[b].part == 0)
            && (forall l: LinkId :: l in g.links <==> l <= n)
            && (forall l :: l in g.links ==> g.links[l].from == (if l == n then 1 else 0) && g.links[l].to == (if l == n then 2 else 1))
  {
    hide Times, Fee, UpTo;
    UpToHas(n);
    assert forall l: LinkId :: l in Roads(n, m, k).links <==> l in UpTo(n);
  }

  lemma {:induction false} RoadsWired(n: nat, m: real, k: nat)
    requires n > 1
    ensures Wired(Roads(n, m, k))
  {
    RoadsAre(n, m, k);
    BelowHas(n);
    NodesAre(n, m, k);
    hide Roads, Below;
    var g := Roads(n, m, k);
    forall b | b in g.nodes
      ensures NodeWired(g, b)
    {
      assert b == 0 || b == 1 || b == 2;
    }
  }

  lemma {:induction false} NodesAre(n: nat, m: real, k: nat)
    ensures var g := Roads(n, m, k);
            && 0 in g.nodes && 1 in g.nodes && 2 in g.nodes && NoDuplicates(Below(n))
            && g.nodes[0].inLinks == [] && g.nodes[0].outLinks == Below(n) == g.nodes[1].inLinks
            && g.nodes[1].outLinks == [n] == g.nodes[2].inLinks && g.nodes[2].outLinks == []
  {
    hide Times, Fee, UpTo;
  }

  lemma {:induction false} LinkOf(n: nat, m: real, k: nat, l: LinkId)
    requires l in UpTo(n) && n > 1
    ensures l in Roads(n, m, k).links
    ensures var link := Roads(n, m, k).links[l];
            && link.capacity == 3600.0 * (if l == n - 1 then Times(k, Fee(true, n)) else 0.0)
            && link.lanes == 1.0 && (l == n ==> link.length == Times(k + 2, m))
  {
    hide Times, Fee;
  }

  /** With one tick per second and the whole population, capacities are hourly ones and cells are meters. */
  lemma {:induction false} ClearRates(link: NetLink)
    requires link.lanes == 1.0
    ensures var s := FreshLink(link, Config(1, 1.0, 1.0, 10));
            && s.flow.perTick == s.flow.remaining == s.flow.perSecond == link.capacity / 3600.0
            && s.storage.used == 0.0 && (link.capacity == 0.0 && link.length >= 0.0 ==> s.storage.max == link.length)
            && s.attr.tps == 1 && s.flow.last == 0 && s.q == [] && s.buffer == [] && s.waiting == [] && s.timer == None
  {
    assert TickLength(1) == NANOS && Seconds(NANOS) == 1.0;
  }

  lemma {:induction false} TimesPositive(j: nat, m: real)
    requires m >= 0.0
    ensures Times(j, m) >= 0.0
  {
    if j > 0 {
      TimesPositive(j - 1, m);
    }
  }

  lemma {:induction false} CapacitiesAre(n: nat, m: real, k: nat)
    requires LeavesCapacity(n, m, k)
    ensures forall l :: l in Roads(n, m, k).links ==> Roads(n, m, k).links[l].capacity >= 0.0
  {
    hide Times, Fee, UpTo, Below;
    FeeIs(n);
    TimesPositive(k, Fee(true, n));
  }

  // ------------------------------------------------------------------ the vehicles

  function Car(id: nat, l: LinkId, n: nat, m: real): (v: Vehicle)
  {
    Vehicle(id, m, 1.0, [l, n], 0)
  }

  /** One vehicle for each in-link but the last, and k + 2 for the last one. */
  function Cars(n: nat, m: real, k: nat): (vs: seq<Vehicle>)
    requires n > 0
    ensures |vs| == n + k + 1
    ensures forall i :: 0 <= i < |vs| ==> vs[i] == Car(i, if i < n - 1 then i else n - 1, n, m)
  {
    seq(n + k + 1, i requires 0 <= i => Car(i, if i < n - 1 then i else n - 1, n, m))
  }

  /** The vehicles of vs that are on link l, in order. */
  function On(vs: seq<Vehicle>, l: LinkId): (r: seq<Vehicle>)
    ensures forall v :: v in r <==> v in vs && v.Curr() == Some(l)
  {
    if vs == [] then []
    else On(vs[..|vs| - 1], l) + (if vs[|vs| - 1].Curr() == Some(l) then [vs[|vs| - 1]] else [])
  }

  lemma {:induction false} NoneOn(vs: seq<Vehicle>, l: LinkId)
    requires forall v :: v in vs ==> v.Curr() != Some(l)
    ensures On(vs, l) == []
  {
    if vs != [] {
      NoneOn(vs[..|vs| - 1], l);
    }
  }

  /** From place j on all vehicles are on link l, before that none is. */
  lemma {:induction false} CountOn(vs: seq<Vehicle>, l: LinkId, j: nat)
    requires j <= |vs| && forall i :: 0 <= i < |vs| ==> (vs[i].Curr() == Some(l) <==> i >= j)
    ensures |On(vs, l)| == |vs| - j
  {
    if vs != [] {
      var n := |vs| - 1;
      if j <= n {
        CountOn(vs[..n], l, j);
      } else {
        CountOn(vs[..n], l, n);
      }
    }
  }

  function WithWaiting(s: LinkState, vs: seq<Vehicle>): (r: LinkState)
  {
    s.(waiting := s.waiting + vs)
  }

  /** In r the vehicles vs wait on their links; otherwise it has the links of net, all of which are local. */
  ghost predicate Wait(net: NetState, r: NetState, vs: seq<Vehicle>)
  {
    && r.links.Keys == net.links.Keys
    && forall l :: l in net.links ==> net.links[l].Local? && r.links[l] == Local(WithWaiting(net.links[l].s, On(vs, l)))
  }

  lemma {:induction false} Departed(x: Context, net: NetState, vs: seq<Vehicle>)
    requires forall v :: v in vs ==> v.Curr().Some? && v.Curr().value in net.links
    requires forall l :: l in net.links ==> net.links[l].Local?
    ensures var r := Run(x, net, Partition.Sends(vs, true, 0));
            Legal(x, net, Partition.Sends(vs, true, 0)) && Wait(net, r, vs)
  {
    hide On, Run, Legal, Wait, Partition.Sends;
    if vs == [] {
      NobodyWaits(x, net);
    } else {
      var front, v := vs[..|vs| - 1], vs[|vs| - 1];
      assert v in vs && forall u :: u in front ==> u in vs;
      Departed(x, net, front);
      LastSend(vs);
      RunSnoc(x, net, Partition.Sends(front, true, 0), Begin(v));
      OneMoreWaits(x, net, Run(x, net, Partition.Sends(front, true, 0)), vs);
    }
  }

  lemma {:induction false} LastSend(vs: seq<Vehicle>)
    requires vs != []
    ensures Partition.Sends(vs, true, 0) == Partition.Sends(vs[..|vs| - 1], true, 0) + [Begin(vs[|vs| - 1])]
  {
  }

  lemma {:induction false} NobodyWaits(x: Context, net: NetState)
    requires forall l :: l in net.links ==> net.links[l].Local?
    ensures Run(x, net, Partition.Sends([], true, 0)) == net && Legal(x, net, Partition.Sends([], true, 0)) && Wait(net, net, [])
  {
    forall l | l in net.links
      ensures net.links[l] == Local(WithWaiting(net.links[l].s, []))
    {
      assert net.links[l].s.waiting + [] == net.links[l].s.waiting;
    }
  }

  lemma {:induction false} OneMoreWaits(x: Context, net: NetState, mid: NetState, vs: seq<Vehicle>)
    requires vs != [] && Wait(net, mid, vs[..|vs| - 1])
    requires vs[|vs| - 1].Curr().Some? && vs[|vs| - 1].Curr().value in net.links
    ensures Enabled(x, mid, Begin(vs[|vs| - 1])) && Wait(net, Apply(x, mid, Begin(vs[|vs| - 1])), vs)
  {
    hide On;
    var front, v := vs[..|vs| - 1], vs[|vs| - 1];
    var r, k := Apply(x, mid, Begin(v)), v.Curr().value;
    LastOn(vs);
    assert r.links == mid.links[k := Local(PushWaiting(mid.links[k].s, v))];
    hide Apply;
    forall l | l in net.links
      ensures r.links[l] == Local(WithWaiting(net.links[l].s, On(vs, l)))
    {
      WaitMore(net.links[l].s, On(front, l), v);
    }
  }

  lemma {:induction false} LastOn(vs: seq<Vehicle>)
    requires vs != []
    ensures forall l: LinkId ::
              On(vs, l) == if vs[|vs| - 1].Curr() == Some(l) then On(vs[..|vs| - 1], l) + [vs[|vs| - 1]] else On(vs[..|vs| - 1], l)
  {
    var front := vs[..|vs| - 1];
    forall l: LinkId
      ensures On(front, l) + [] == On(front, l)
    {
    }
  }

  lemma {:induction false} WaitMore(s: LinkState, on: seq<Vehicle>, v: Vehicle)
    ensures PushWaiting(WithWaiting(s, on), v) == WithWaiting(s, on + [v])
  {
    assert s.waiting + on + [v] == s.waiting + (on + [v]);
  }

  // ------------------------------------------------------------------ the first tick

  /** With flow capacity for all but the last of them, all waiting vehicles go into the buffer. */
  lemma {:induction false} AllBuffered(s: LinkState, m: real)
    requires m > 0.0 && forall v :: v in s.waiting ==> !v.WantsToArrive() && v.pce == m
    requires s.waiting != [] ==> s.flow.remaining - Pce(s.buffer) > Times(|s.waiting| - 1, m)
    ensures FillFromWaiting(s) == Filled(s.(waiting := [], buffer := s.buffer + s.waiting), [])
    decreases |s.waiting|
  {
    if s.waiting == [] {
      assert s.buffer + [] == s.buffer && s.(waiting := [], buffer := s.buffer) == s;
    } else {
      var v, rest := s.waiting[0], s.waiting[1..];
      assert v in s.waiting && forall u :: u in rest ==> u in s.waiting;
      TimesPositive(|rest|, m);
      PceConcat(s.buffer, [v]);
      assert Pce([v]) == m + Pce([v][1..]);
      var t := s.(waiting := rest, buffer := s.buffer + [v]);
      AllBuffered(t, m);
      assert s.buffer + [v] + rest == s.buffer + s.waiting;
    }
  }

  /** Without flow capacity nothing happens. */
  lemma {:induction false} NoneBuffered(s: LinkState)
    requires s.flow.remaining == 0.0 && s.buffer == [] && (s.waiting != [] ==> !s.waiting[0].WantsToArrive())
    ensures FillFromWaiting(s) == Filled(s, [])
  {
  }

  /** A step in tick 0 of a link whose bucket was never refilled and whose queue is empty. */
  lemma {:induction false} FirstStep(s: LinkState)
    requires s.attr.tps > 0 && s.flow.last == 0 && s.q == [] && FillFromWaiting(s).s.q == []
    ensures SimStep(s, 0) == Filled(FillFromWaiting(s).s, FillFromWaiting(s).ended)
  {
    assert TickNanos(s.attr.tps, 0) == 0;
    assert UpdateFlow(s, 0) == s;
    assert FillFromWaiting(s).ended + [] == FillFromWaiting(s).ended;
  }

  /** The vehicles depart, and in tick 0 the links on which they wait make their step. */
  ghost function JamActs(n: nat, m: real, k: nat): (acts: seq<NetAction>)
    requires n > 0
  {
    Partition.Sends(Cars(n, m, k), true, 0) + FullScan.Steps(Below(n), 0)
  }

  ghost function Jam(n: nat, m: real, k: nat): (net: NetState)
    requires n > 0 && ValidContext(Place(n, m, k))
  {
    Run(Place(n, m, k), FromNetwork(Place(n, m, k)), JamActs(n, m, k))
  }

  lemma {:induction false} PlaceIsValid(n: nat, m: real, k: nat)
    requires n > 1
    ensures ValidContext(Place(n, m, k))
  {
    hide Roads, Wired;
    RoadsWired(n, m, k);
    WiredIsClosed(Roads(n, m, k));
  }

  lemma {:induction false} WiredIsClosed(g: RoadNet)
    requires Wired(g)
    ensures Closed(g)
  {
  }

  /** All links are local and empty at first. */
  lemma {:induction false} FirstState(n: nat, m: real, k: nat)
    requires n > 1
    ensures ValidContext(Place(n, m, k))
    ensures var net := FromNetwork(Place(n, m, k));
            && (forall l: LinkId :: l in net.links <==> l <= n)
            && forall l :: l in net.links ==>
                 l in Roads(n, m, k).links && net.links[l] == Local(FreshLink(Roads(n, m, k).links[l], Config(1, 1.0, 1.0, 10)))
  {
    hide Roads, FreshLink;
    PlaceIsValid(n, m, k);
    RoadsAre(n, m, k);
    var x := Place(n, m, k);
    forall l | l in x.g.links
      ensures InPartition(x, l) && CreateSimLink(x, l) == Local(FreshLink(x.g.links[l], x.c))
    {
      assert EndsKnown(x.g, l);
    }
    hide InPartition, CreateSimLink;
    assert forall l: LinkId :: l in FromNetwork(x).links <==> l in x.g.links;
  }

  /** Who waits where when all vehicles have departed. */
  lemma {:induction false} CarsOn(n: nat, m: real, k: nat, l: LinkId)
    requires n > 1
    ensures forall v :: v in On(Cars(n, m, k), l) ==> v == Car(v.id, l, n, m) && l < n
    ensures l < n <==> On(Cars(n, m, k), l) != []
    ensures l == n - 1 ==> |On(Cars(n, m, k), l)| == k + 2
  {
    var vs := Cars(n, m, k);
    hide Cars;
    if l < n {
      assert vs[l] in vs && vs[l].Curr() == Some(l);
      assert vs[l] in On(vs, l);
    }
    if l == n - 1 {
      CountOn(vs, l, n - 1);
    }
    if l >= n {
      NoneOn(vs, l);
    }
  }

  /** Link l before any vehicle was on it. */
  function Clear(n: nat, m: real, k: nat, l: LinkId): (s: LinkState)
    requires l in Roads(n, m, k).links
  {
    FreshLink(Roads(n, m, k).links[l], Config(1, 1.0, 1.0, 10))
  }

  lemma {:induction false} ClearIs(n: nat, m: real, k: nat, l: LinkId)
    requires LeavesCapacity(n, m, k) && l <= n
    ensures l in Roads(n, m, k).links
    ensures var s := Clear(n, m, k, l);
            && s.flow.remaining == (if l == n - 1 then Times(k, Fee(true, n)) else 0.0) == CapOf(Place(n, m, k), l)
            && s.storage.used == 0.0 && (l == n ==> s.storage.max == Times(k + 2, m))
            && s.attr.tps == 1 && s.flow.last == 0 && s.q == [] && s.buffer == [] && s.waiting == [] && s.timer == None
  {
    hide Times, Fee, UpTo, FreshLink;
    TimesPositive(k + 2, m);
    UpToHas(n);
    LinkOf(n, m, k, l);
    ClearRates(Roads(n, m, k).links[l]);
  }

  /** The link after tick 0: the vehicles of the last in-link are in its buffer, and those of the others still wait. */
  function Jammed(n: nat, m: real, k: nat, l: LinkId): (s: LinkState)
    requires n > 0 && l in Roads(n, m, k).links
  {
    var on := On(Cars(n, m, k), l);
    if l == n - 1 then Clear(n, m, k, l).(buffer := on, timer := Some(1)) else WithWaiting(Clear(n, m, k, l), on)
  }

  lemma {:induction false} JamStep(n: nat, m: real, k: nat, l: LinkId)
    requires LeavesCapacity(n, m, k) && l <= n
    ensures l in Roads(n, m, k).links
    ensures var s := WithWaiting(Clear(n, m, k, l), On(Cars(n, m, k), l));
            s.attr.tps > 0 && NetInvariant.Stepped(Local(s), 0) == Local(Jammed(n, m, k, l))
  {
    hide Clear, Times, Fee, Cars, On, SimStep, FillFromWaiting, CapOf;
    ClearIs(n, m, k, l);
    CarsOn(n, m, k, l);
    var c, on := Clear(n, m, k, l), On(Cars(n, m, k), l);
    var s := WithWaiting(c, on);
    assert [] + on == on;
    if l == n - 1 {
      LastStep(s, n, m, k);
      assert c.buffer + on == on;
    } else {
      assert on != [] ==> on[0] in on;
      NoneBuffered(s);
      FirstStep(s);
    }
  }

  lemma {:induction false} LastStep(s: LinkState, n: nat, m: real, k: nat)
    requires LeavesCapacity(n, m, k) && s.flow.remaining == Times(k, Fee(true, n)) && |s.waiting| == k + 2
    requires s.attr.tps == 1 && s.flow.last == 0 && s.q == [] && s.buffer == [] && s.timer == None
    requires forall v :: v in s.waiting ==> v == Car(v.id, n - 1, n, m)
    ensures Offer(SimStep(s, 0).s, 1) == s.(waiting := [], buffer := s.waiting, timer := Some(1))
  {
    hide Times, Fee, SimStep, FillFromWaiting;
    assert Pce(s.buffer) == 0.0;
    AllBuffered(s, m);
    FirstStep(s);
    TimesPositive(k + 1, m);
    assert [] + s.waiting == s.waiting;
  }

  // ------------------------------------------------------------------ the state after tick 0

  lemma {:induction false} CarsAreSound(n: nat, m: real, k: nat)
    requires n > 1 && m > 0.0
    ensures forall v :: v in Cars(n, m, k) ==>
              v.Curr().Some? && v.Curr().value < n && NetInvariant.Placed(Roads(n, m, k), v.Curr().value, v) && v.pce == m
    ensures forall a :: a in JamActs(n, m, k) ==> NetInvariant.Sound(Place(n, m, k), m, a) && !a.Move? && (a.StepLink? ==> a.now == 0)
  {
    hide Roads;
    RoadsAre(n, m, k);
    var acts := JamActs(n, m, k);
    forall a | a in acts
      ensures NetInvariant.Sound(Place(n, m, k), m, a) && !a.Move? && (a.StepLink? ==> a.now == 0)
    {
      if a.Begin? {
        assert a.v in Cars(n, m, k);
      }
    }
  }

  /** The state when all vehicles have departed. */
  ghost function Gathered(n: nat, m: real, k: nat): (net: NetState)
    requires n > 0 && ValidContext(Place(n, m, k))
  {
    Run(Place(n, m, k), FromNetwork(Place(n, m, k)), Partition.Sends(Cars(n, m, k), true, 0))
  }

  lemma {:induction false} GatheredIs(n: nat, m: real, k: nat)
    requires LeavesCapacity(n, m, k)
    ensures ValidContext(Place(n, m, k))
    ensures var x, net := Place(n, m, k), Gathered(n, m, k);
            && NetInvariant.Inv(x, m, net) && Wait(FromNetwork(x), net, Cars(n, m, k))
            && Legal(x, FromNetwork(x), Partition.Sends(Cars(n, m, k), true, 0))
  {
    hide Roads, NetInvariant.Inv, Run, Legal, FromNetwork, Cars, On, NetInvariant.Placed, Below, Wait;
    FirstState(n, m, k);
    var x := Place(n, m, k);
    var first, sends := FromNetwork(x), Partition.Sends(Cars(n, m, k), true, 0);
    CarsAreSound(n, m, k);
    CapacitiesAre(n, m, k);
    NetInvariant.InitialInv(x, m);
    Departed(x, first, Cars(n, m, k));
    assert forall a :: a in sends ==> a in JamActs(n, m, k);
    NetInvariant.RunKeepsInv(x, m, first, sends);
  }

  lemma {:induction false} JamIs(n: nat, m: real, k: nat)
    requires LeavesCapacity(n, m, k)
    ensures ValidContext(Place(n, m, k))
    ensures var x, net := Place(n, m, k), Jam(n, m, k);
            && NetInvariant.Inv(x, m, net) && Legal(x, FromNetwork(x), JamActs(n, m, k))
            && Partition.SteppedExactly(Gathered(n, m, k), net, FullScan.Elements(Below(n)), 0)
  {
    hide Roads, NetInvariant.Inv, Run, Legal, FromNetwork, Cars, Wait, Below, FullScan.Elements, FullScan.Steps, Partition.SteppedExactly;
    FirstState(n, m, k);
    GatheredIs(n, m, k);
    GatheredLinks(n, m, k);
    var x := Place(n, m, k);
    NodesAre(n, m, k);
    BelowHas(n);
    FullScan.StepsAreExact(x, m, Gathered(n, m, k), Below(n), 0);
    RunConcat(x, FromNetwork(x), Partition.Sends(Cars(n, m, k), true, 0), FullScan.Steps(Below(n), 0));
  }

  lemma {:induction false} GatheredLinks(n: nat, m: real, k: nat)
    requires LeavesCapacity(n, m, k)
    ensures ValidContext(Place(n, m, k))
    ensures var net := Gathered(n, m, k);
            && (forall l: LinkId :: l in net.links <==> l <= n)
            && forall l :: l in net.links ==>
                 l in Roads(n, m, k).links && net.links[l] == Local(WithWaiting(Clear(n, m, k, l), On(Cars(n, m, k), l)))
  {
    hide Roads, NetInvariant.Inv, Run, Legal, FromNetwork, Cars, On, FreshLink;
    FirstState(n, m, k);
    GatheredIs(n, m, k);
  }

  /** The state that the loop finds in tick 1. */
  lemma {:induction false} JamLinks(n: nat, m: real, k: nat)
    requires LeavesCapacity(n, m, k)
    ensures ValidContext(Place(n, m, k))
    ensures var net := Jam(n, m, k);
            && (forall l: LinkId :: l in net.links <==> l <= n)
            && forall l :: l in net.links ==> l in Roads(n, m, k).links && net.links[l] == Local(Jammed(n, m, k, l))
  {
    hide Roads, NetInvariant.Inv, Run, Legal, FromNetwork, Cars, On, Clear, Below, Jam, Gathered, Times, Fee, NetInvariant.Stepped;
    JamIs(n, m, k);
    GatheredLinks(n, m, k);
    BelowHas(n);
    forall l: LinkId | l <= n
      ensures Jam(n, m, k).links[l] == Local(Jammed(n, m, k, l))
    {
      JamStep(n, m, k, l);
    }
  }

  /** What is on link l and what it can do. */
  lemma {:induction false} JamOne(n: nat, m: real, k: nat, l: LinkId)
    requires LeavesCapacity(n, m, k) && l <= n
    ensures ValidContext(Place(n, m, k))
    ensures var x, net := Place(n, m, k), Jam(n, m, k);
            && l in x.g.links && l in net.links && net.links[l].Local?
            && (net.links[l].s.timer.Some? ==> net.links[l].s.timer.value <= 1)
            && Holds(net, l, if l == n - 1 then k + 2 else 0, CapOf(x, l))
            && CapOf(x, l) == (if l == n - 1 then Times(k, Fee(true, n)) else 0.0)
            && (forall v :: v in net.links[l].s.buffer ==> v.pce == m && v.PeekNext() == Some(n))
            && (l < n ==> Contents(net.links[l]) != [])
  {
    hide Roads, Jam, Cars, On, Clear, Times, Fee, CapOf;
    JamLinks(n, m, k);
    ClearIs(n, m, k, l);
    CarsOn(n, m, k, l);
  }

  lemma {:induction false} JamBusy(n: nat, m: real, k: nat)
    requires LeavesCapacity(n, m, k)
    ensures ValidContext(Place(n, m, k))
    ensures var x, net := Place(n, m, k), Jam(n, m, k);
            && AllKnown(x, Below(n)) && Busy(x, net, Below(n), n, m, 1)
            && CapOf(x, n - 1) == Times(k, Fee(true, n)) && Holds(net, n - 1, k + 2, CapOf(x, n - 1))
  {
    hide Times, Fee, CapOf, Roads, Jam, OnLink, Laden, Contents;
    JamLinks(n, m, k);
    BelowHas(n);
    forall l: LinkId | l <= n
      ensures var x, net := Place(n, m, k), Jam(n, m, k);
              && l in x.g.links && l in net.links && net.links[l].Local?
              && Holds(net, l, if l == n - 1 then k + 2 else 0, CapOf(x, l))
              && CapOf(x, l) == (if l == n - 1 then Times(k, Fee(true, n)) else 0.0)
    {
      JamOne(n, m, k, l);
    }
    JamLaden(n, m, k);
  }

  lemma {:induction false} JamLaden(n: nat, m: real, k: nat)
    requires LeavesCapacity(n, m, k)
    ensures ValidContext(Place(n, m, k)) && Laden(Jam(n, m, k), n - 1, n, m, 1)
  {
    hide Times, Fee, CapOf, Roads, Jam, OnLink, Contents, Clear, Cars, On;
    JamOne(n, m, k, n - 1);
    JamOne(n, m, k, n);
    JamLinks(n, m, k);
    ClearIs(n, m, k, n);
  }

  lemma {:induction false} JamSizes(n: nat, m: real, k: nat)
    requires LeavesCapacity(n, m, k)
    ensures ValidContext(Place(n, m, k)) && AtLeast(Jam(n, m, k), Below(n), m) && TimersAt(Place(n, m, k), 1, Jam(n, m, k), 1)
  {
    hide Times, Fee, CapOf, Roads, Jam, OnLink, Contents, Holds;
    JamLinks(n, m, k);
    BelowHas(n);
    var net := Jam(n, m, k);
    forall l | l in net.links
      ensures net.links[l].Local? && (net.links[l].s.timer.Some? ==> net.links[l].s.timer.value <= 1)
      ensures forall v :: v in net.links[l].s.buffer ==> v.pce == m
    {
      JamOne(n, m, k, l);
    }
  }

  lemma {:induction false} JamAtNode(n: nat, m: real, k: nat)
    requires LeavesCapacity(n, m, k)
    ensures ValidContext(Place(n, m, k))
    ensures var x, net := Place(n, m, k), Jam(n, m, k);
            Among(Below(n), net.activeLinks) == Below(n) && AtNode(x, m, 1, net, Below(n), 1)
  {
    hide Roads, Below, Among, TimersAt, NetInvariant.LinksOk, NetInvariant.NodesOk, NetInvariant.OnNet, Times, Fee, Jam, Contents, Holds, CapOf;
    JamIs(n, m, k);
    var net := Jam(n, m, k);
    NodesAre(n, m, k);
    RoadsAre(n, m, k);
    BelowHas(n);
    JamSizes(n, m, k);
    forall l | l in Below(n)
      ensures l in net.activeLinks
    {
      JamOne(n, m, k, l);
    }
    AllAmong(Below(n), net.activeLinks);
  }

  lemma {:induction false} AllAmong(ls: seq<LinkId>, s: set<LinkId>)
    requires forall l :: l in ls ==> l in s
    ensures Among(ls, s) == ls
  {
    if ls != [] {
      assert ls[0] in ls && forall l :: l in ls[1..] ==> l in ls;
      AllAmong(ls[1..], s);
    }
  }

  // ------------------------------------------------------------------ the exact condition

  /** What node b can find in tick now: a run from the initial state in which nodes work before links, up to that point of the tick. */
  ghost predicate Reached(x: Context, p: real, net: NetState, now: Tick)
  {
    ValidContext(x) && exists acts :: ReachedBy(x, p, net, acts, now)
  }

  ghost predicate ReachedBy(x: Context, p: real, net: NetState, acts: seq<NetAction>, now: Tick)
    requires ValidContext(x)
  {
    && net == Run(x, FromNetwork(x), acts) && Legal(x, FromNetwork(x), acts) && Projection.MovesBeforeSteps(acts)
    && forall a :: a in acts ==> NetInvariant.Sound(x, p, a) && (a.Move? ==> a.now <= now) && (a.StepLink? ==> a.now < now)
  }

  /** The loop of node b, which has n in-links, runs and ends with these draws; no buffered vehicle is smaller than m. */
  ghost predicate Works(x: Context, p: real, net: NetState, b: NodeId, n: nat, m: real, draws: seq<real>, now: Tick)
  {
    && Wired(x.g) && (forall l :: l in x.g.links ==> x.g.links[l].capacity >= 0.0)
    && Reached(x, p, net, now) && b in x.g.nodes && |x.g.nodes[b].inLinks| == n && AtLeast(net, x.g.nodes[b].inLinks, m)
    && var active := Among(x.g.nodes[b].inLinks, net.activeLinks);
       && AtNode(x, p, b, net, active, now) && AllKnown(x, active)
       && EndsWith(x, net, active, Opening(x, active), draws, now)
  }

  /** None of the links that node b looks at has anything left that may move. */
  ghost predicate NoneLeft(x: Context, net: NetState, b: NodeId, draws: seq<real>, now: Tick)
  {
    && b in x.g.nodes
    && var active := Among(x.g.nodes[b].inLinks, net.activeLinks);
       AllKnown(x, active) && forall l :: l in active ==> Blocked(Rounds(x, net, active, Opening(x, active), draws, now).0, l, now)
  }

  /** Nodes with n in-links settle all of them, in every state that a run reaches and for all draws, if no vehicle is smaller than m. */
  ghost predicate AlwaysSettles(n: nat, m: real)
  {
    forall x: Context, p: real, net: NetState, b: NodeId, draws: seq<real>, now: Tick ::
      Works(x, p, net, b, n, m, draws, now) ==> NoneLeft(x, net, b, draws, now)
  }

  /** Nodes with n in-links settle their links exactly if no vehicle is smaller than the nudges of one round. */
  lemma {:induction false} SettlesExactlyAbove(n: nat, m: real)
    requires n > 0 && m > 0.0
    ensures AlwaysSettles(n, m) <==> m >= NudgesPerRound(n)
  {
    hide Works, NoneLeft;
    if m >= NudgesPerRound(n) {
      forall x: Context, p: real, net: NetState, b: NodeId, draws: seq<real>, now: Tick | Works(x, p, net, b, n, m, draws, now)
        ensures NoneLeft(x, net, b, draws, now)
      {
        WorksSettles(x, p, net, b, n, m, draws, now);
      }
    } else {
      var k := EnoughRounds(n, m);
      JamLeaves(n, m, k);
    }
  }

  lemma {:induction false} WorksSettles(x: Context, p: real, net: NetState, b: NodeId, n: nat, m: real, draws: seq<real>, now: Tick)
    requires Works(x, p, net, b, n, m, draws, now) && m >= NudgesPerRound(n)
    ensures NoneLeft(x, net, b, draws, now)
  {
    hide AtNode, EndsWith, Opening, Rounds, Blocked, NudgesPerRound, Wired, Reached;
    var ins := x.g.nodes[b].inLinks;
    var active := Among(ins, net.activeLinks);
    AmongOf(net, ins, net.activeLinks);
    assert AtLeast(net, active, NudgesPerRound(n));
    forall l | l in active
      ensures Blocked(Rounds(x, net, active, Opening(x, active), draws, now).0, l, now)
    {
      NothingLeft(x, p, b, net, active, draws, now, n, l);
    }
  }

  /** Some number of rounds makes the difference between fee and size larger than one vehicle. */
  function EnoughRounds(n: nat, m: real): (k: nat)
    requires n > 0 && 0.0 < m < NudgesPerRound(n)
    ensures LeavesCapacity(n, m, k)
  {
    var k := ((m + 0.0000000001) / (NudgesPerRound(n) - m)).Floor + 1;
    Enough(n, m, k);
    k
  }

  lemma {:induction false} Enough(n: nat, m: real, k: int)
    requires n > 0 && 0.0 < m < NudgesPerRound(n)
    requires k == ((m + 0.0000000001) / (NudgesPerRound(n) - m)).Floor + 1
    ensures k > 0 && LeavesCapacity(n, m, k)
  {
    var gap := NudgesPerRound(n) - m;
    var q := (m + 0.0000000001) / gap;
    assert q * gap == m + 0.0000000001;
    assert q > 0.0 && k as real > q;
    assert k as real * gap > q * gap;
    FeeIs(n);
    TimesIs(k, Fee(true, n));
    TimesIs(k + 1, m);
    assert k as real * NudgesPerRound(n) == k as real * gap + k as real * m;
    assert (k + 1) as real * m == k as real * m + m;
  }

  /** In tick 1 of the jam the loop of node 1 ends with a vehicle left that may move. */
  lemma {:induction false} JamLeaves(n: nat, m: real, k: nat)
    requires LeavesCapacity(n, m, k)
    ensures !AlwaysSettles(n, m)
  {
    hide Works, NoneLeft, Jam, Place, Times, Fee;
    PlaceIsValid(n, m, k);
    var draws := seq(k + 1, i => 0.0);
    JamWorks(n, m, k, draws);
    assert !NoneLeft(Place(n, m, k), Jam(n, m, k), 1, draws, 1) && Works(Place(n, m, k), m, Jam(n, m, k), 1, n, m, draws, 1);
  }

  /** With whatever draws of k + 1 rounds. */
  lemma {:induction false} JamWorks(n: nat, m: real, k: nat, draws: seq<real>)
    requires LeavesCapacity(n, m, k) && |draws| == k + 1 && forall i :: 0 <= i < |draws| ==> 0.0 <= draws[i] < 1.0
    ensures ValidContext(Place(n, m, k))
    ensures Works(Place(n, m, k), m, Jam(n, m, k), 1, n, m, draws, 1)
    ensures !NoneLeft(Place(n, m, k), Jam(n, m, k), 1, draws, 1)
  {
    hide Roads, Below, AllKnown, Busy, CapOf, EndsWith, Opening, Rounds, Blocked, Among, AtLeast, Times, Fee, LeavesCapacity;
    hide AtNode, Wired, Jam, Reached;
    JamAtNode(n, m, k);
    JamBusy(n, m, k);
    JamSizes(n, m, k);
    JamReached(n, m, k);
    NodesAre(n, m, k);
    EnoughLinks(n, m, k);
    RoadsWired(n, m, k);
    CapacitiesAre(n, m, k);
    StopsEarly(Place(n, m, k), Jam(n, m, k), Below(n), n, m, k, draws, 1);
    BelowHas(n);
    assert Last(Below(n)) in Below(n);
  }

  lemma {:induction false} EnoughLinks(n: nat, m: real, k: nat)
    requires LeavesCapacity(n, m, k)
    ensures n > 1
  {
  }

  lemma {:induction false} JamReached(n: nat, m: real, k: nat)
    requires LeavesCapacity(n, m, k)
    ensures ValidContext(Place(n, m, k)) && Reached(Place(n, m, k), m, Jam(n, m, k), 1)
  {
    hide Roads, Run, Legal, NetInvariant.Inv, NetInvariant.Sound, JamActs;
    JamIs(n, m, k);
    CarsAreSound(n, m, k);
    assert ReachedBy(Place(n, m, k), m, Jam(n, m, k), JamActs(n, m, k), 1);
  }
}
