/** What every operation on a partition keeps: well-placed vehicles, exact accounts, exact activity. */
module NetInvariant {
  import opened Basics
  import opened FlowCap
  import opened Storage
  import opened StuckTimers
  import opened LinkSpec
  import LinkRuns
  import opened RoadNetwork
  import opened Links
  import opened Totals
  import opened NetSpec

  /** The route names links of the network, each leading to where the next one starts. */
  ghost predicate Connected(g: RoadNet, route: seq<LinkId>)
  {
    && (forall i :: 0 <= i < |route| ==> route[i] in g.links)
    && (forall i :: 0 <= i < |route| - 1 ==> g.links[route[i]].to == g.links[route[i + 1]].from)
  }

  /** Vehicle v is on link l: its route is connected and its route pointer names l. */
  ghost predicate Placed(g: RoadNet, l: LinkId, v: Vehicle)
  {
    Connected(g, v.route) && v.pos < |v.route| && v.route[v.pos] == l
  }

  ghost predicate AllPlaced(g: RoadNet, l: LinkId, vs: seq<Vehicle>)
  {
    forall v :: v in vs ==> Placed(g, l, v)
  }

  ghost predicate RightKind(x: Context, l: LinkId, sl: SimLinkState)
  {
    EndsKnown(x.g, l) &&
    var from, to := FromPart(x.g, l), ToPart(x.g, l);
    && InPartition(x, l)
    && (sl.Local? <==> from == to)
    && (sl.In? <==> from != to && to == x.part)
    && (sl.In? ==> sl.fromPart == from)
    && (sl.Out? ==> sl.toPart == to)
  }

  ghost predicate LinkOk(x: Context, p: real, l: LinkId, sl: SimLinkState)
    requires ValidConfig(x.c)
  {
    && RightKind(x, l, sl)
    && AllPlaced(x.g, l, Contents(sl))
    && PceWithin(Contents(sl), p)
    && StorageOf(sl).max == StorageMax(x.g.links[l], x.c)
    && (!sl.Out? ==>
          && LinkRuns.Inv(sl.s, p)
          && sl.s.attr == FreshLink(x.g.links[l], x.c).attr
          && sl.s.flow.perTick == FreshLink(x.g.links[l], x.c).flow.perTick
          && forall v :: v in sl.s.buffer ==> !v.WantsToArrive())
  }

  ghost predicate LinksOk(x: Context, p: real, net: NetState)
    requires ValidConfig(x.c)
  {
    && (forall l :: l in net.links <==> EndsKnown(x.g, l) && InPartition(x, l))
    && (forall l :: l in net.links ==> LinkOk(x, p, l, net.links[l]))
  }

  /** A link is active exactly if a vehicle is on it. */
  ghost predicate ActiveOk(net: NetState)
  {
    forall l :: l in net.activeLinks <==> l in net.links && Contents(net.links[l]) != []
  }

  /** The node behind every link that offers a vehicle is active. */
  ghost predicate NodesOk(x: Context, net: NetState)
  {
    && (forall n :: n in net.activeNodes ==> n in x.g.nodes && x.g.nodes[n].part == x.part)
    && (forall l :: l in net.links && OffersVeh(net.links[l]) ==> l in x.g.links && x.g.links[l].to in net.activeNodes)
  }

  ghost function IdMap(links: map<LinkId, SimLinkState>): (r: map<nat, multiset<nat>>)
  {
    map l | l in links :: Ids(Contents(links[l]))
  }

  /** The ids of all vehicles on the partition's links. */
  ghost function OnNet(net: NetState): (r: multiset<nat>)
  {
    Total(IdMap(net.links))
  }

  ghost predicate Inv(x: Context, p: real, net: NetState)
  {
    && ValidContext(x)
    && LinksOk(x, p, net)
    && ActiveOk(net)
    && NodesOk(x, net)
    && net.vehCounter == |OnNet(net)|
  }

  // ------------------------------------------------------------------ one link changes

  lemma {:induction false} OnNetUpdate(links: map<LinkId, SimLinkState>, l: LinkId, sl: SimLinkState)
    requires l in links
    ensures Total(IdMap(links[l := sl])) + Ids(Contents(links[l])) == Total(IdMap(links)) + Ids(Contents(sl))
  {
    assert IdMap(links[l := sl]) == IdMap(links)[l := Ids(Contents(sl))];
    TotalUpdate(IdMap(links), l, Ids(Contents(sl)));
  }

  lemma {:induction false} LinksOkUpdate(x: Context, p: real, net: NetState, l: LinkId, sl: SimLinkState)
    requires ValidConfig(x.c) && LinksOk(x, p, net) && l in net.links && LinkOk(x, p, l, sl)
    ensures LinksOk(x, p, net.(links := net.links[l := sl]))
  {
  }

  // ------------------------------------------------------------------ moving a vehicle

  /**
   * Route safety: whatever link of a partition offers a vehicle, the vehicle has a next link, that
   * link is in the partition, and it is not the downstream half of a split link.
   */
  lemma {:induction false} OfferIsMovable(x: Context, p: real, net: NetState, l: LinkId)
    requires ValidContext(x) && LinksOk(x, p, net) && l in net.links && OffersVeh(net.links[l])
    ensures MoveIsDefined(net, l)
    ensures var n := NextOf(net, l);
            n in x.g.links && x.g.links[n].from == x.g.links[l].to && FromPart(x.g, n) == x.part
  {
    var s := net.links[l].s;
    var v := s.buffer[0];
    assert LinkOk(x, p, l, net.links[l]);
    assert v in s.buffer && v in OnLink(s);
    assert Placed(x.g, l, v);
    var n := v.route[v.pos + 1];
    assert x.g.links[v.route[v.pos]].to == x.g.links[n].from;
    assert LinkOk(x, p, n, net.links[n]);
  }

  lemma {:induction false} PopOk(x: Context, p: real, l: LinkId, sl: SimLinkState)
    requires ValidConfig(x.c) && LinkOk(x, p, l, sl) && !sl.Out? && sl.s.buffer != []
    ensures LinkOk(x, p, l, sl.(s := Pop(sl.s)))
  {
    LinkRuns.PopKeepsInv(sl.s, p);
    var s, t := sl.s, Pop(sl.s);
    hide FreshLink, StorageMax, Placed, LinkRuns.Inv;
    forall v | v in OnLink(t)
      ensures v in OnLink(s)
    {
    }
  }

  lemma {:induction false} PopIds(s: LinkState)
    requires s.buffer != []
    ensures Ids(OnLink(s)) == Ids(OnLink(Pop(s))) + multiset{s.buffer[0].id}
  {
    hide Ids;
    var t := Pop(s);
    IdsOnLink(s);
    IdsOnLink(t);
    assert s.buffer == [s.buffer[0]] + t.buffer;
    IdsCons(s.buffer[0], t.buffer);
    hide OnLink, Pop, Vehs;
    var q, h, b, w := Ids(Vehs(s.q)), multiset{s.buffer[0].id}, Ids(t.buffer), Ids(s.waiting);
    assert q + (h + b) + w == q + b + w + h;
  }

  lemma {:induction false} IdsOnLink(s: LinkState)
    ensures Ids(OnLink(s)) == Ids(Vehs(s.q)) + Ids(s.buffer) + Ids(s.waiting)
  {
    IdsConcat(Vehs(s.q) + s.buffer, s.waiting);
    IdsConcat(Vehs(s.q), s.buffer);
  }

  lemma {:induction false} IdsSnoc(vs: seq<Vehicle>, v: Vehicle)
    ensures Ids(vs + [v]) == Ids(vs) + multiset{v.id}
  {
    IdsConcat(vs, [v]);
    assert [v] == [v] + [];
    IdsCons(v, []);
  }

  lemma {:induction false} PushOk(x: Context, p: real, l: LinkId, sl: SimLinkState, v: Vehicle, now: Tick)
    requires ValidConfig(x.c) && LinkOk(x, p, l, sl) && Placed(x.g, l, v) && 0.0 < v.pce <= p
    ensures LinkOk(x, p, l, Push(sl, v, now))
  {
    hide FreshLink, StorageMax, Placed, LinkRuns.Inv, TravelTicks, Contents, SatAdd, Ids;
    var r := Push(sl, v, now);
    if !sl.Out? {
      LinkRuns.PushKeepsInv(sl.s, v, now, p);
    }
    PushContents(sl, v, now);
  }

  lemma {:induction false} PushContents(sl: SimLinkState, v: Vehicle, now: Tick)
    ensures var r := Push(sl, v, now);
            && (forall y :: y in Contents(r) <==> y in Contents(sl) || y == v)
            && Contents(r) != []
            && OffersVeh(r) == OffersVeh(sl)
            && Ids(Contents(r)) == Ids(Contents(sl)) + multiset{v.id}
  {
    var r := Push(sl, v, now);
    if sl.Out? {
      IdsSnoc(sl.o.q, v);
    } else {
      assert Vehs(r.s.q) == Vehs(sl.s.q) + [v];
      IdsSnoc(Vehs(sl.s.q), v);
      IdsOnLink(sl.s);
      IdsOnLink(r.s);
      assert v in Vehs(r.s.q);
    }
  }

  lemma {:induction false} WaitOk(x: Context, p: real, l: LinkId, sl: SimLinkState, v: Vehicle)
    requires ValidConfig(x.c) && LinkOk(x, p, l, sl) && !sl.Out? && Placed(x.g, l, v) && 0.0 < v.pce <= p
    ensures LinkOk(x, p, l, sl.(s := PushWaiting(sl.s, v)))
    ensures Ids(OnLink(PushWaiting(sl.s, v))) == Ids(OnLink(sl.s)) + multiset{v.id}
    ensures OnLink(PushWaiting(sl.s, v)) != []
  {
    hide FreshLink, StorageMax, Placed, Ids, Pce;
    var r := PushWaiting(sl.s, v);
    LinkRuns.ApplyKeepsInv(sl.s, LinkRuns.Wait(v), p);
    assert LinkRuns.Apply(sl.s, LinkRuns.Wait(v)) == r;
    hide LinkRuns.Inv, LinkRuns.Apply;
    assert OnLink(r) == OnLink(sl.s) + [v];
    IdsSnoc(OnLink(sl.s), v);
    assert forall y :: y in OnLink(r) ==> y in OnLink(sl.s) || y == v;
  }

  lemma {:induction false} OfferOk(x: Context, p: real, l: LinkId, sl: SimLinkState, t: Tick)
    requires ValidConfig(x.c) && LinkOk(x, p, l, sl) && !sl.Out?
    ensures LinkOk(x, p, l, sl.(s := Offer(sl.s, t)))
    ensures OnLink(Offer(sl.s, t)) == OnLink(sl.s) && Offers(Offer(sl.s, t)) == Offers(sl.s)
  {
  }

  /** The vehicle that link l offers, once it has left l, is placed on its next link. */
  lemma {:induction false} MovedIsPlaced(x: Context, p: real, net: NetState, l: LinkId)
    requires ValidConfig(x.c) && LinksOk(x, p, net) && MoveIsDefined(net, l)
    ensures var v := net.links[l].s.buffer[0];
            Placed(x.g, l, v) && Placed(x.g, NextOf(net, l), v.LeftLink()) && 0.0 < v.pce <= p
  {
    var s := net.links[l].s;
    assert s.buffer[0] in OnLink(s);
    assert LinkOk(x, p, l, net.links[l]);
  }

  /** The state after the head of link l's buffer was taken, and before it is put anywhere. */
  function Popped(net: NetState, l: LinkId): (r: NetState)
    requires MoveIsDefined(net, l)
  {
    net.(links := net.links[l := net.links[l].(s := Pop(net.links[l].s))])
  }

  /** A move is a pop on one link followed by a push on the next. */
  lemma {:induction false} MoveInTwo(net: NetState, l: LinkId, now: Tick)
    requires MoveIsDefined(net, l)
    ensures var v, n := net.links[l].s.buffer[0], NextOf(net, l);
            && n in Popped(net, l).links
            && MoveVehicle(net, l, now).links ==
               Popped(net, l).links[n := Push(Popped(net, l).links[n], v.LeftLink(), now)]
  {
  }

  lemma {:induction false} MoveKeepsLinks(x: Context, p: real, net: NetState, l: LinkId, now: Tick)
    requires ValidConfig(x.c) && LinksOk(x, p, net) && MoveIsDefined(net, l)
    ensures LinksOk(x, p, MoveVehicle(net, l, now))
  {
    hide LinkOk, Placed, Push, Pop;
    var v, n, net1 := net.links[l].s.buffer[0], NextOf(net, l), Popped(net, l);
    MovedIsPlaced(x, p, net, l);
    PopOk(x, p, l, net.links[l]);
    LinksOkUpdate(x, p, net, l, net1.links[l]);
    PushOk(x, p, n, net1.links[n], v.LeftLink(), now);
    var up := Push(net1.links[n], v.LeftLink(), now);
    LinksOkUpdate(x, p, net1, n, up);
    MoveInTwo(net, l, now);
    hide MoveIsDefined, NextOf, Popped;
    assert LinksOk(x, p, net1.(links := net1.links[n := up]));
  }

  lemma {:induction false} MoveKeepsVehicles(net: NetState, l: LinkId, now: Tick)
    requires MoveIsDefined(net, l)
    ensures OnNet(MoveVehicle(net, l, now)) == OnNet(net)
  {
    var v, n, net1 := net.links[l].s.buffer[0], NextOf(net, l), Popped(net, l);
    var up := Push(net1.links[n], v.LeftLink(), now);
    PopIds(net.links[l].s);
    OnNetUpdate(net.links, l, net1.links[l]);
    PushContents(net1.links[n], v.LeftLink(), now);
    OnNetUpdate(net1.links, n, up);
    MoveInTwo(net, l, now);
    MoveBalance(OnNet(net), OnNet(net1), OnNet(MoveVehicle(net, l, now)),
                Ids(Contents(net.links[l])), Ids(Contents(net1.links[l])),
                Ids(Contents(net1.links[n])), Ids(Contents(up)), multiset{v.id});
  }

  lemma {:induction false} MoveBalance(a: multiset<nat>, b: multiset<nat>, c: multiset<nat>,
                    l0: multiset<nat>, l1: multiset<nat>, n0: multiset<nat>, n1: multiset<nat>, v: multiset<nat>)
    requires b + l0 == a + l1 && l0 == l1 + v
    requires c + n0 == b + n1 && n1 == n0 + v
    ensures c == a
  {
    assert b + (l1 + v) == a + l1;
    assert b + v == a by {
      forall x
        ensures (b + v)[x] == a[x]
      {
        assert (b + (l1 + v))[x] == (a + l1)[x];
      }
    }
    forall x
      ensures c[x] == (b + v)[x]
    {
      assert (c + n0)[x] == (b + (n0 + v))[x];
    }
  }

  lemma {:induction false} MoveKeepsActivity(x: Context, net: NetState, l: LinkId, now: Tick)
    requires ActiveOk(net) && NodesOk(x, net) && MoveIsDefined(net, l)
    ensures ActiveOk(MoveVehicle(net, l, now)) && NodesOk(x, MoveVehicle(net, l, now))
  {
    hide ActiveOk, NodesOk, OnLink, Ids, Pce;
    var r := MoveVehicle(net, l, now);
    var v, n, net1 := net.links[l].s.buffer[0], NextOf(net, l), Popped(net, l);
    MoveInTwo(net, l, now);
    PushContents(net1.links[n], v.LeftLink(), now);
    ActiveMeansContents(r.links[l].s);
    ActiveMeansContents(net.links[l].s);
    MovedActivity(x, net, r, l, n, net1.links[l], Push(net1.links[n], v.LeftLink(), now));
  }

  /** Links l and n change; n gets a vehicle, and l stays active only if it has one left. */
  lemma {:induction false} MovedActivity(x: Context, net: NetState, r: NetState, l: LinkId, n: LinkId, mid: SimLinkState, up: SimLinkState)
    requires ActiveOk(net) && NodesOk(x, net) && l in net.links && n in net.links
    requires r.links == net.links[l := mid][n := up] && r.activeNodes == net.activeNodes
    requires Contents(net.links[l]) != [] && Contents(up) != []
    requires OffersVeh(mid) ==> OffersVeh(net.links[l])
    requires OffersVeh(up) == OffersVeh(if n == l then mid else net.links[n])
    requires r.activeLinks == if Contents(r.links[l]) != [] then net.activeLinks + {n} else net.activeLinks + {n} - {l}
    ensures ActiveOk(r) && NodesOk(x, r)
  {
    hide Contents, OffersVeh;
  }

  lemma {:induction false} ActiveMeansContents(s: LinkState)
    ensures Active(s) <==> OnLink(s) != []
  {
    if s.q != [] {
      assert OnLink(s)[0] == s.q[0].veh;
    }
  }

  // ------------------------------------------------------------------ the step of one link

  lemma {:induction false} StepLinkOk(x: Context, p: real, l: LinkId, sl: SimLinkState, now: Tick)
    requires ValidConfig(x.c) && LinkOk(x, p, l, sl) && !sl.Out?
    ensures var f := SimStep(sl.s, now);
            && LinkOk(x, p, l, sl.(s := f.s))
            && AllPlaced(x.g, l, f.ended) && PceWithin(f.ended, p)
            && (forall v :: v in f.ended ==> v.WantsToArrive())
  {
    hide SimStep, FreshLink, StorageMax, Placed, OnLink, Pce, Arriving, Continuing;
    assert sl.s.attr.tps > 0 by {
      assert LinkRuns.Inv(sl.s, p);
    }
    hide LinkRuns.Inv;
    LinkRuns.StepKeepsInv(sl.s, now, p);
    LinkRuns.StepKeepsPce(sl.s, now, p);
    StepKeepsPlaces(x, l, sl.s, now);
    StepKeepsContinuing(sl.s, now);
    StepKeepsFixed(sl.s, now);
  }

  lemma {:induction false} StepKeepsFixed(s: LinkState, now: Tick)
    requires s.attr.tps > 0
    ensures var r := SimStep(s, now).s;
            r.attr == s.attr && r.storage.max == s.storage.max && r.flow.perTick == s.flow.perTick
  {
    hide SimStep, Pce, Arriving, Continuing;
    SimStepShape(s, now);
  }

  lemma {:induction false} StepKeepsPlaces(x: Context, l: LinkId, s: LinkState, now: Tick)
    requires s.attr.tps > 0 && AllPlaced(x.g, l, OnLink(s))
    ensures AllPlaced(x.g, l, OnLink(SimStep(s, now).s)) && AllPlaced(x.g, l, SimStep(s, now).ended)
  {
    var f := SimStep(s, now);
    LinkRuns.StepConserves(s, now);
    forall v | v in OnLink(f.s) || v in f.ended
      ensures Placed(x.g, l, v)
    {
      assert v in multiset(OnLink(f.s)) + multiset(f.ended);
      assert v in multiset(OnLink(s));
      assert v in OnLink(s);
    }
  }

  lemma {:induction false} StepKeepsContinuing(s: LinkState, now: Tick)
    requires s.attr.tps > 0 && forall v :: v in s.buffer ==> !v.WantsToArrive()
    ensures forall v :: v in SimStep(s, now).s.buffer ==> !v.WantsToArrive()
    ensures forall v :: v in SimStep(s, now).ended ==> v.WantsToArrive()
  {
    SimStepShape(s, now);
    SplitByArrival(s.waiting[..WaitingTaken(s, now)]);
    SplitByArrival(Vehs(s.q[..QueueTaken(s, now)]));
  }

  lemma {:induction false} StepIds(s: LinkState, now: Tick)
    requires s.attr.tps > 0
    ensures Ids(OnLink(s)) == Ids(OnLink(SimStep(s, now).s)) + Ids(SimStep(s, now).ended)
  {
    hide Ids;
    SimStepShape(s, now);
    var r := SimStep(s, now);
    var w, k := WaitingTaken(s, now), QueueTaken(s, now);
    IdsOnLink(s);
    IdsOnLink(r.s);
    SplitIds(s.waiting, w);
    assert Vehs(s.q)[..k] == Vehs(s.q[..k]) && Vehs(s.q)[k..] == Vehs(s.q[k..]);
    SplitIds(Vehs(s.q), k);
    var ws, qs := s.waiting[..w], Vehs(s.q[..k]);
    IdsConcat(s.buffer + Continuing(ws), Continuing(qs));
    IdsConcat(s.buffer, Continuing(ws));
    IdsConcat(Arriving(ws), Arriving(qs));
    hide OnLink, SimStep, Vehs, Arriving, Continuing;
    Regroup(Ids(Arriving(qs)), Ids(Continuing(qs)), Ids(Vehs(s.q[k..])), Ids(s.buffer),
            Ids(Arriving(ws)), Ids(Continuing(ws)), Ids(s.waiting[w..]));
  }

  lemma {:induction false} Regroup(qa: multiset<nat>, qc: multiset<nat>, q: multiset<nat>, b: multiset<nat>,
                wa: multiset<nat>, wc: multiset<nat>, w: multiset<nat>)
    ensures qa + qc + q + b + (wa + wc + w) == q + (b + wc + qc) + w + (wa + qa)
  {
  }

  lemma {:induction false} SplitIds(vs: seq<Vehicle>, k: nat)
    requires k <= |vs|
    ensures Ids(vs) == Ids(Arriving(vs[..k])) + Ids(Continuing(vs[..k])) + Ids(vs[k..])
  {
    IdsSplit(vs[..k]);
    assert vs == vs[..k] + vs[k..];
    IdsConcat(vs[..k], vs[k..]);
  }

  /** The state of link l after its step. */
  function Stepped(sl: SimLinkState, now: Tick): (r: SimLinkState)
    requires !sl.Out? ==> sl.s.attr.tps > 0
  {
    if sl.Out? then sl.(o := sl.o.(q := [])) else sl.(s := Offer(SimStep(sl.s, now).s, Next(now)))
  }

  lemma {:induction false} SteppedOk(x: Context, p: real, l: LinkId, sl: SimLinkState, now: Tick)
    requires ValidConfig(x.c) && LinkOk(x, p, l, sl)
    ensures LinkOk(x, p, l, Stepped(sl, now))
  {
    if !sl.Out? {
      StepLinkOk(x, p, l, sl, now);
      OfferOk(x, p, l, sl.(s := SimStep(sl.s, now).s), Next(now));
    }
  }

  /** What a link's step takes off the link. */
  function TakenOff(sl: SimLinkState, now: Tick): (r: seq<Vehicle>)
    requires !sl.Out? ==> sl.s.attr.tps > 0
  {
    if sl.Out? then sl.o.q else SimStep(sl.s, now).ended
  }

  lemma {:induction false} SteppedIds(sl: SimLinkState, now: Tick)
    requires !sl.Out? ==> sl.s.attr.tps > 0
    ensures Ids(Contents(sl)) == Ids(Contents(Stepped(sl, now))) + Ids(TakenOff(sl, now))
  {
    if !sl.Out? {
      hide Ids;
      StepIds(sl.s, now);
      assert OnLink(Stepped(sl, now).s) == OnLink(SimStep(sl.s, now).s);
    } else {
      assert Contents(Stepped(sl, now)) == [];
    }
  }

  lemma {:induction false} StepKeepsLinks(x: Context, p: real, net: NetState, l: LinkId, now: Tick)
    requires ValidConfig(x.c) && LinksOk(x, p, net) && l in net.links
    ensures l in x.g.links && LinksOk(x, p, StepOneLink(x, net, l, now))
  {
    hide SimStep, Offer, Active, AllPlaced, PceWithin, StorageMax, FreshLink, Offers;
    assert LinkOk(x, p, l, net.links[l]);
    SteppedOk(x, p, l, net.links[l], now);
    var u := Stepped(net.links[l], now);
    assert l in x.g.links && StepOneLink(x, net, l, now).links == net.links[l := u];
    hide LinkOk, StepOneLink, Stepped;
    LinksOkUpdate(x, p, net, l, u);
  }

  lemma {:induction false} StepKeepsVehicles(x: Context, net: NetState, l: LinkId, now: Tick)
    requires l in net.links && l in x.g.links && (!net.links[l].Out? ==> net.links[l].s.attr.tps > 0)
    ensures var r := StepOneLink(x, net, l, now);
            && OnNet(net) == OnNet(r) + Ids(TakenOff(net.links[l], now))
            && r.vehCounter == net.vehCounter - |TakenOff(net.links[l], now)|
  {
    var u := Stepped(net.links[l], now);
    var r := StepOneLink(x, net, l, now);
    SteppedIds(net.links[l], now);
    assert r.links == net.links[l := u];
    OnNetUpdate(net.links, l, u);
    StepBalance(OnNet(net), OnNet(r), Ids(Contents(net.links[l])), Ids(Contents(u)), Ids(TakenOff(net.links[l], now)));
  }

  lemma {:induction false} StepBalance(a: multiset<nat>, b: multiset<nat>, l0: multiset<nat>, l1: multiset<nat>, off: multiset<nat>)
    requires b + l0 == a + l1 && l0 == l1 + off
    ensures a == b + off
  {
    forall x
      ensures a[x] == (b + off)[x]
    {
      assert (b + (l1 + off))[x] == (a + l1)[x];
    }
  }

  lemma {:induction false} StepKeepsActivity(x: Context, p: real, net: NetState, l: LinkId, now: Tick)
    requires Inv(x, p, net) && l in net.links && l in x.g.links
    ensures ActiveOk(StepOneLink(x, net, l, now)) && NodesOk(x, StepOneLink(x, net, l, now))
  {
    hide ActiveOk, NodesOk, OnNet, Placed, FreshLink, StorageMax, SimStep, Active, Offers;
    var sl := net.links[l];
    assert LinkOk(x, p, l, sl);
    hide LinkRuns.Inv;
    assert sl.Out? || ToPart(x.g, l) == x.part;
    StepActivity(net, l, now);
    var r := StepOneLink(x, net, l, now);
    assert StepKeepsKind(x, net, l, now, r);
    SteppedActivity(x, net, r, l, now);
  }

  /** What the step of link l does to the sets of active links and nodes. */
  ghost predicate StepKeepsKind(x: Context, net: NetState, l: LinkId, now: Tick, r: NetState)
    requires l in net.links && l in x.g.links && (!net.links[l].Out? ==> net.links[l].s.attr.tps > 0)
  {
    var u := Stepped(net.links[l], now);
    && r.links == net.links[l := u]
    && (r.activeNodes == net.activeNodes ||
        (!net.links[l].Out? && r.activeNodes == net.activeNodes + {x.g.links[l].to}))
    && (OffersVeh(u) ==> x.g.links[l].to in r.activeNodes)
    && r.activeLinks == (if Contents(u) == [] then net.activeLinks - {l} else net.activeLinks)
  }

  lemma {:induction false} SteppedActivity(x: Context, net: NetState, r: NetState, l: LinkId, now: Tick)
    requires ActiveOk(net) && NodesOk(x, net) && l in net.links && EndsKnown(x.g, l)
    requires !net.links[l].Out? ==> net.links[l].s.attr.tps > 0 && ToPart(x.g, l) == x.part
    requires StepKeepsKind(x, net, l, now, r)
    requires Contents(Stepped(net.links[l], now)) != [] ==> l in net.activeLinks
    ensures ActiveOk(r) && NodesOk(x, r)
  {
    hide Contents, OffersVeh, Stepped;
  }

  lemma {:induction false} StepFromNonempty(s: LinkState, now: Tick)
    requires s.attr.tps > 0
    ensures OnLink(SimStep(s, now).s) != [] ==> OnLink(s) != []
  {
    LinkRuns.StepConserves(s, now);
    var t := SimStep(s, now).s;
    hide SimStep, OnLink;
    if OnLink(t) != [] {
      assert OnLink(t)[0] in multiset(OnLink(s));
    }
  }

  /** A link that has vehicles after its step had vehicles before it. */
  lemma {:induction false} StepActivity(net: NetState, l: LinkId, now: Tick)
    requires ActiveOk(net) && l in net.links && (!net.links[l].Out? ==> net.links[l].s.attr.tps > 0)
    ensures var sl := net.links[l];
            var u := Stepped(sl, now);
            && (Contents(u) != [] ==> l in net.activeLinks)
            && (!sl.Out? ==> (Contents(u) == [] <==> !Active(SimStep(sl.s, now).s)))
  {
    var sl := net.links[l];
    if !sl.Out? {
      var s := SimStep(sl.s, now).s;
      ActiveMeansContents(s);
      assert Contents(Stepped(sl, now)) == OnLink(s);
      assert Contents(sl) == OnLink(sl.s);
      StepFromNonempty(sl.s, now);
      hide SimStep, Stepped, OnLink, Contents, Active;
    }
  }

  // ------------------------------------------------------------------ every operation

  /** Vehicles come onto a partition only where their route pointer says, and with a bounded size. */
  ghost predicate Sound(x: Context, p: real, a: NetAction)
  {
    a.Begin? || a.Receive? ==> a.v.Curr().Some? && Placed(x.g, a.v.Curr().value, a.v) && 0.0 < a.v.pce <= p
  }

  ghost function Arrivals(a: NetAction): (r: multiset<nat>)
  {
    if a.Begin? || a.Receive? then multiset{a.v.id} else multiset{}
  }

  /** What one action does to the vehicles of a partition. */
  ghost predicate Accounted(x: Context, net: NetState, a: NetAction)
  {
    OnNet(net) + Arrivals(a) ==
    OnNet(Apply(x, net, a)) + Ids(Exits(x, net, a)) + Ids(Ends(x, net, a))
  }

  /** One link changes; nothing about offers or the active nodes does. */
  lemma {:induction false} ActivityUpdate(x: Context, net: NetState, r: NetState, l: LinkId, sl: SimLinkState)
    requires ActiveOk(net) && NodesOk(x, net) && l in net.links
    requires r.links == net.links[l := sl] && r.activeNodes == net.activeNodes
    requires OffersVeh(sl) ==> OffersVeh(net.links[l])
    requires Contents(sl) != [] || Contents(net.links[l]) == []
    requires r.activeLinks == if Contents(sl) == [] then net.activeLinks else net.activeLinks + {l}
    ensures ActiveOk(r) && NodesOk(x, r)
  {
    hide Contents, OffersVeh;
  }

  lemma {:induction false} EnterKeepsInv(x: Context, p: real, net: NetState, a: NetAction)
    requires Inv(x, p, net) && Enabled(x, net, a) && Sound(x, p, a) && (a.Begin? || a.Receive?)
    ensures Inv(x, p, Apply(x, net, a)) && Accounted(x, net, a)
  {
    hide ActiveOk, NodesOk, OnNet, Ids;
    var l := a.v.Curr().value;
    var sl := net.links[l];
    assert LinkOk(x, p, l, sl);
    hide LinksOk, Placed, LinkOk, LinkRuns.Inv, Pce, TravelTicks;
    var t := if a.Begin? then sl.(s := PushWaiting(sl.s, a.v)) else Push(sl, a.v, a.now);
    if a.Begin? {
      WaitOk(x, p, l, sl, a.v);
    } else {
      PushOk(x, p, l, sl, a.v, a.now);
      PushContents(sl, a.v, a.now);
    }
    assert OffersVeh(t) == OffersVeh(sl);
    var r := Apply(x, net, a);
    assert r == net.(links := net.links[l := t], activeLinks := net.activeLinks + {l}, vehCounter := net.vehCounter + 1);
    assert Ids(Contents(t)) == Ids(Contents(sl)) + multiset{a.v.id};
    NoOff(x, net, a);
    hide Exits, Ends;
    SingleLinkInv(x, p, net, r, l, t, multiset{a.v.id});
  }

  /** One link gets the vehicles ids, and the counter follows. */
  lemma {:induction false} SingleLinkInv(x: Context, p: real, net: NetState, r: NetState, l: LinkId, t: SimLinkState, ids: multiset<nat>)
    requires Inv(x, p, net) && l in net.links && LinkOk(x, p, l, t)
    requires r.links == net.links[l := t] && r.activeNodes == net.activeNodes
    requires OffersVeh(t) == OffersVeh(net.links[l])
    requires Ids(Contents(t)) == Ids(Contents(net.links[l])) + ids
    requires Contents(t) != [] || Contents(net.links[l]) == []
    requires r.activeLinks == if Contents(t) == [] then net.activeLinks else net.activeLinks + {l}
    requires r.vehCounter == net.vehCounter + |ids|
    ensures Inv(x, p, r) && OnNet(r) == OnNet(net) + ids
  {
    hide LinkOk, Contents, OffersVeh, IdMap, Total, Ids;
    LinksOkUpdate(x, p, net, l, t);
    OnNetUpdate(net.links, l, t);
    ActivityUpdate(x, net, r, l, t);
    var later, was := Ids(Contents(t)), Ids(Contents(net.links[l]));
    hide ActiveOk, NodesOk;
    assert LinksOk(x, p, net.(links := net.links[l := t]));
    assert LinksOk(x, p, r);
    assert OnNet(r) + was == OnNet(net) + later;
    StepBalance(OnNet(r), OnNet(net), later, was, ids);
  }

  lemma {:induction false} NoOff(x: Context, net: NetState, a: NetAction)
    requires !a.StepLink?
    ensures Ids(Exits(x, net, a)) == multiset{} && Ids(Ends(x, net, a)) == multiset{}
  {
  }

  /** One link changes, but not its vehicles or its offer. */
  lemma {:induction false} SameContentsInv(x: Context, p: real, net: NetState, r: NetState, l: LinkId, u: SimLinkState)
    requires Inv(x, p, net) && l in net.links && LinkOk(x, p, l, u)
    requires Contents(u) == Contents(net.links[l]) && OffersVeh(u) == OffersVeh(net.links[l])
    requires r == net.(links := net.links[l := u])
    ensures Inv(x, p, r) && OnNet(r) == OnNet(net)
  {
    hide LinkOk, Contents, OffersVeh, Ids, OnNet, LinksOk, NodesOk;
    assert net.activeLinks + {l} == net.activeLinks || Contents(u) == [];
    hide ActiveOk;
    assert Ids(Contents(u)) == Ids(Contents(net.links[l])) + multiset{};
    SingleLinkInv(x, p, net, r, l, u, multiset{});
  }

  lemma {:induction false} LookKeepsInv(x: Context, p: real, net: NetState, l: LinkId, t: Tick)
    requires Inv(x, p, net) && Enabled(x, net, Look(l, t))
    ensures Inv(x, p, Apply(x, net, Look(l, t))) && Accounted(x, net, Look(l, t))
  {
    hide ActiveOk, NodesOk, OnNet, Ids;
    var sl := net.links[l];
    var u := sl.(s := Offer(sl.s, t));
    assert LinkOk(x, p, l, sl);
    hide LinksOk;
    OfferOk(x, p, l, sl, t);
    hide LinkOk;
    SameContentsInv(x, p, net, Apply(x, net, Look(l, t)), l, u);
    NoOff(x, net, Look(l, t));
  }

  lemma {:induction false} MoveKeepsInv(x: Context, p: real, net: NetState, l: LinkId, now: Tick)
    requires Inv(x, p, net) && Enabled(x, net, Move(l, now))
    ensures Inv(x, p, Apply(x, net, Move(l, now))) && Accounted(x, net, Move(l, now))
  {
    hide LinksOk, ActiveOk, NodesOk, OnNet, Ids, MoveIsDefined;
    MoveKeepsLinks(x, p, net, l, now);
    MoveKeepsVehicles(net, l, now);
    MoveKeepsActivity(x, net, l, now);
    NoOff(x, net, Move(l, now));
    assert Apply(x, net, Move(l, now)) == MoveVehicle(net, l, now);
    assert MoveVehicle(net, l, now).vehCounter == net.vehCounter;
    hide MoveVehicle, ShouldMove, Enabled, Apply, Exits, Ends;
  }

  lemma {:induction false} StepKeepsInv(x: Context, p: real, net: NetState, l: LinkId, now: Tick)
    requires Inv(x, p, net) && Enabled(x, net, StepLink(l, now))
    ensures Inv(x, p, Apply(x, net, StepLink(l, now))) && Accounted(x, net, StepLink(l, now))
  {
    hide OnNet, ActiveOk, NodesOk, Ids, StepOneLink, SimStep;
    assert l in x.g.links && l in net.links;
    var r := StepOneLink(x, net, l, now);
    StepOffs(x, net, l, now);
    hide Enabled, Apply, Exits, Ends, TakenOff;
    StepKeepsLinks(x, p, net, l, now);
    StepKeepsVehicles(x, net, l, now);
    StepKeepsActivity(x, p, net, l, now);
    hide LinksOk;
    IdsSize(TakenOff(net.links[l], now));
  }

  lemma {:induction false} StepOffs(x: Context, net: NetState, l: LinkId, now: Tick)
    requires Enabled(x, net, StepLink(l, now))
    ensures Apply(x, net, StepLink(l, now)) == StepOneLink(x, net, l, now)
    ensures Ids(TakenOff(net.links[l], now)) ==
            Ids(Exits(x, net, StepLink(l, now))) + Ids(Ends(x, net, StepLink(l, now)))
  {
    assert Ids([]) == multiset{};
  }

  lemma {:induction false} CreditOk(x: Context, p: real, l: LinkId, sl: SimLinkState, u: SimLinkState)
    requires ValidConfig(x.c) && LinkOk(x, p, l, sl) && sl.Out?
    requires u.Out? && u.toPart == sl.toPart && u.o.q == sl.o.q && u.o.storage.max == sl.o.storage.max
    ensures LinkOk(x, p, l, u) && Contents(u) == Contents(sl) && OffersVeh(u) == OffersVeh(sl)
  {
    hide Placed, StorageMax;
  }

  lemma {:induction false} CreditKeepsInv(x: Context, p: real, net: NetState, l: LinkId, released: real)
    requires Inv(x, p, net) && Enabled(x, net, Credit(l, released))
    ensures Inv(x, p, Apply(x, net, Credit(l, released))) && Accounted(x, net, Credit(l, released))
  {
    hide ActiveOk, NodesOk, OnNet, Ids;
    var sl := net.links[l];
    var u := sl.(o := sl.o.(storage := sl.o.storage.(used := sl.o.storage.used - released)));
    assert LinkOk(x, p, l, sl);
    hide LinksOk;
    CreditOk(x, p, l, sl, u);
    hide LinkOk;
    SameContentsInv(x, p, net, Apply(x, net, Credit(l, released)), l, u);
    NoOff(x, net, Credit(l, released));
  }

  lemma {:induction false} RestKeepsInv(x: Context, p: real, net: NetState, n: NodeId)
    requires Inv(x, p, net) && Enabled(x, net, Rest(n))
    ensures Inv(x, p, Apply(x, net, Rest(n))) && Accounted(x, net, Rest(n))
  {
    hide LinkOk, Total, OffersVeh, Contents, Ids;
    NoOff(x, net, Rest(n));
  }

  /** Every action keeps the invariant and accounts for every vehicle. */
  lemma {:induction false} ApplyKeepsInv(x: Context, p: real, net: NetState, a: NetAction)
    requires Inv(x, p, net) && Sound(x, p, a)
    ensures Inv(x, p, Apply(x, net, a))
    ensures Enabled(x, net, a) ==> Accounted(x, net, a)
  {
    hide Inv, Accounted, Enabled, Placed;
    if !Enabled(x, net, a) {
      assert Apply(x, net, a) == net;
    } else {
      match a
      case Begin(_) => EnterKeepsInv(x, p, net, a);
      case Receive(_, _) => EnterKeepsInv(x, p, net, a);
      case Look(l, t) => LookKeepsInv(x, p, net, l, t);
      case Move(l, now) => MoveKeepsInv(x, p, net, l, now);
      case StepLink(l, now) => StepKeepsInv(x, p, net, l, now);
      case Credit(l, released) => CreditKeepsInv(x, p, net, l, released);
      case Rest(n) => RestKeepsInv(x, p, net, n);
    }
  }

  /** The invariant holds in every state that any run reaches; the counter never is negative. */
  lemma {:induction false} RunKeepsInv(x: Context, p: real, net: NetState, acts: seq<NetAction>)
    requires Inv(x, p, net) && forall a :: a in acts ==> Sound(x, p, a)
    ensures Inv(x, p, Run(x, net, acts)) && Run(x, net, acts).vehCounter >= 0
  {
    if acts != [] {
      var front, a := acts[..|acts| - 1], acts[|acts| - 1];
      assert forall b :: b in front ==> b in acts;
      assert a in acts;
      RunKeepsInv(x, p, net, front);
      ApplyKeepsInv(x, p, Run(x, net, front), a);
    }
  }

  /** The ids of the vehicles that come onto the partition in a run. */
  ghost function ArrivalsOf(acts: seq<NetAction>): (r: multiset<nat>)
  {
    if acts == [] then multiset{} else ArrivalsOf(acts[..|acts| - 1]) + Arrivals(acts[|acts| - 1])
  }

  lemma {:induction false} ArrivalsConcat(a: seq<NetAction>, b: seq<NetAction>)
    ensures ArrivalsOf(a + b) == ArrivalsOf(a) + ArrivalsOf(b)
  {
    if b == [] {
      assert a + b == a;
    } else {
      assert (a + b)[..|a + b| - 1] == a + b[..|b| - 1];
      ArrivalsConcat(a, b[..|b| - 1]);
    }
  }

  lemma {:induction false} NoArrivals(acts: seq<NetAction>)
    requires forall a :: a in acts ==> !a.Begin? && !a.Receive?
    ensures ArrivalsOf(acts) == multiset{}
  {
    if acts != [] {
      assert acts[|acts| - 1] in acts && forall a :: a in acts[..|acts| - 1] ==> a in acts;
      NoArrivals(acts[..|acts| - 1]);
    }
  }

  /** Over a run: who was there and who came is there, has left the partition, or has ended the leg. */
  lemma {:induction false} RunAccounted(x: Context, p: real, net: NetState, acts: seq<NetAction>)
    requires Inv(x, p, net) && Legal(x, net, acts) && forall a :: a in acts ==> Sound(x, p, a)
    ensures OnNet(net) + ArrivalsOf(acts) == OnNet(Run(x, net, acts)) + Ids(RunExits(x, net, acts)) + Ids(RunEnds(x, net, acts))
  {
    hide Inv, Sound, Apply, Enabled, Exits, Ends, OnNet, Ids;
    if acts == [] {
      NoIds();
    } else {
      var front, a := acts[..|acts| - 1], acts[|acts| - 1];
      assert a in acts && forall b :: b in front ==> b in acts;
      RunAccounted(x, p, net, front);
      RunKeepsInv(x, p, net, front);
      var mid := Run(x, net, front);
      ApplyKeepsInv(x, p, mid, a);
      IdsConcat(RunExits(x, net, front), Exits(x, mid, a));
      IdsConcat(RunEnds(x, net, front), Ends(x, mid, a));
      AccountAdds(OnNet(net), ArrivalsOf(front), OnNet(mid), Ids(RunExits(x, net, front)), Ids(RunEnds(x, net, front)),
                  Arrivals(a), OnNet(Apply(x, mid, a)), Ids(Exits(x, mid, a)), Ids(Ends(x, mid, a)));
    }
  }

  lemma {:induction false} NoIds()
    ensures Ids([]) == multiset{}
  {
  }

  lemma {:induction false} AccountAdds(s: multiset<nat>, i: multiset<nat>, m: multiset<nat>, x: multiset<nat>, e: multiset<nat>,
                                       i1: multiset<nat>, r: multiset<nat>, x1: multiset<nat>, e1: multiset<nat>)
    requires s + i == m + x + e && m + i1 == r + x1 + e1
    ensures s + (i + i1) == r + (x + x1) + (e + e1)
  {
    assert s + (i + i1) == m + x + e + i1;
    assert m + x + e + i1 == (m + i1) + x + e;
  }

  /** A partition freshly made from the network satisfies the invariant. */
  lemma {:induction false} InitialInv(x: Context, p: real)
    requires ValidContext(x) && p > 0.0
    requires forall l :: l in x.g.links ==> x.g.links[l].capacity >= 0.0
    ensures Inv(x, p, FromNetwork(x))
  {
    var net := FromNetwork(x);
    forall l | l in net.links
      ensures LinkOk(x, p, l, net.links[l]) && Contents(net.links[l]) == []
    {
      FreshOk(x, p, l);
    }
    TotalOfEmpties(IdMap(net.links));
  }

  lemma {:induction false} FreshOk(x: Context, p: real, l: LinkId)
    requires ValidContext(x) && p > 0.0 && l in x.g.links && x.g.links[l].capacity >= 0.0
    requires InPartition(x, l)
    ensures LinkOk(x, p, l, CreateSimLink(x, l)) && Contents(CreateSimLink(x, l)) == []
  {
    var s := FreshLink(x.g.links[l], x.c);
    FreshRates(x.g.links[l], x.c);
    assert Vehs([]) == [];
    assert OnLink(s) == [];
  }

  lemma {:induction false} FreshRates(l: NetLink, c: Config)
    requires ValidConfig(c) && l.capacity >= 0.0
    ensures var f := FreshLink(l, c).flow; f.perSecond >= 0.0 && f.perTick >= 0.0
  {
    var a := l.capacity * c.sampleSize;
    assert a >= 0.0;
    var b := a / 3600.0;
    assert b >= 0.0;
    assert Seconds(TickLength(c.tps)) >= 0.0;
    assert b * Seconds(TickLength(c.tps)) >= 0.0;
  }
}
