/**
 * The network partition that one process simulates: link objects that are changed in place, the
 * sets of active links and nodes, and the vehicle counter. Every method is proved to be a legal
 * run of the state machine in NetSpec, so what holds of all runs there holds of this code.
 */
module Partition {
  import opened Basics
  import opened FlowCap
  import opened Storage
  import opened StuckTimers
  import opened LinkSpec
  import opened RoadNetwork
  import opened Links
  import opened NetSpec
  import opened SimLinks
  import opened NodeMoves
  import opened NodeLoop
  import opened NodeDraws
  import opened Totals
  import NetInvariant
  import Ledger

  /** What the random number generator of a node may draw: anything from 0 up to, but not including, 1. */
  method Random() returns (r: real)
    ensures 0.0 <= r < 1.0
  {
    r := *;
    if r < 0.0 || r >= 1.0 {
      r := 0.0;
    }
  }

  // ------------------------------------------------------------------ construction

  /** The links are apart and their objects are all in parts. */
  ghost predicate Separate(ls: map<LinkId, SimLink>, parts: set<object>)
  {
    && (forall l :: l in ls ==> ls[l].Footprint() <= parts)
    && (forall l, m :: l in ls && m in ls && l != m ==> ls[l].Footprint() !! ls[m].Footprint())
  }

  /** The link l as it is created. */
  ghost predicate Created(x: Context, l: LinkId, sl: SimLink)
    requires ValidContext(x)
    reads sl.Footprint()
  {
    l in x.g.links && sl.State() == CreateSimLink(x, l) && (!sl.OutSim? ==> sl.ll.to == x.g.links[l].to)
  }

  ghost predicate SimLinksOf(x: Context, ls: map<LinkId, SimLink>)
    requires ValidContext(x)
    reads set l, o | l in ls && o in ls[l].Footprint() :: o
  {
    && (forall l :: l in ls <==> l in x.g.links && InPartition(x, l))
    && (forall l :: l in ls ==> Created(x, l, ls[l]))
  }

  method CreateOne(g: RoadNet, c: Config, part: Part, l: LinkId) returns (sl: SimLink)
    requires Closed(g) && ValidConfig(c) && l in g.links
    ensures Created(Context(g, c, part), l, sl) && fresh(sl.Footprint())
  {
    hide FreshLink, StorageMax;
    var link := g.links[l];
    var from, to := g.nodes[link.from].part, g.nodes[link.to].part;
    if from == to {
      var ll := new LocalLink(l, link, c);
      sl := LocalSim(ll);
    } else if to == part {
      var ll := new LocalLink(l, link, c);
      sl := InSim(from, ll);
    } else {
      var ol := new SplitOutLink(l, link, c, to);
      sl := OutSim(ol);
    }
  }

  ghost predicate AllCreated(x: Context, ls: map<LinkId, SimLink>)
    requires ValidContext(x)
    reads set l, o | l in ls && o in ls[l].Footprint() :: o
  {
    forall l :: l in ls ==> Created(x, l, ls[l])
  }

  /** Creates the links ids, in place of those of the same id that are there already. */
  method AddLinks(g: RoadNet, c: Config, part: Part, ids: seq<LinkId>, ls0: map<LinkId, SimLink>, ghost parts0: set<object>)
    returns (ls: map<LinkId, SimLink>, ghost parts: set<object>)
    requires Closed(g) && ValidConfig(c) && forall l :: l in ids ==> l in g.links
    requires Separate(ls0, parts0) && AllCreated(Context(g, c, part), ls0)
    ensures Separate(ls, parts) && AllCreated(Context(g, c, part), ls)
    ensures fresh(parts - parts0) && ls.Keys == ls0.Keys + set l | l in ids
  {
    hide SimLink.Footprint, Created;
    ls, parts := ls0, parts0;
    for i := 0 to |ids|
      invariant Separate(ls, parts) && AllCreated(Context(g, c, part), ls)
      invariant fresh(parts - parts0) && ls.Keys == ls0.Keys + set l | l in ids[..i]
    {
      var sl := CreateOne(g, c, part, ids[i]);
      ls := ls[ids[i] := sl];
      parts := parts + sl.Footprint();
      assert ids[..i + 1] == ids[..i] + [ids[i]];
    }
    assert ids[..|ids|] == ids;
  }

  function LinksAt(g: RoadNet, n: NodeId): (r: seq<LinkId>)
    requires n in g.nodes
  {
    g.nodes[n].inLinks + g.nodes[n].outLinks
  }

  /** Creates the links at every node of the partition; a link between two of them is created twice. */
  method CreateSimLinks(g: RoadNet, c: Config, part: Part) returns (ls: map<LinkId, SimLink>, ghost parts: set<object>)
    requires Wired(g) && ValidConfig(c)
    ensures Separate(ls, parts) && fresh(parts)
    ensures SimLinksOf(Context(g, c, part), ls)
    ensures forall l :: l in ls && !ls[l].OutSim? ==> l in g.links && ls[l].ll.to == g.links[l].to
  {
    hide SimLink.Footprint, Created, InPartition, Separate, LinksAt, NodeWired;
    ghost var x := Context(g, c, part);
    ls, parts := map[], {};
    NoLinksYet(x);
    var todo := set n | n in g.nodes && g.nodes[n].part == part;
    while todo != {}
      invariant forall n :: n in todo ==> n in g.nodes && g.nodes[n].part == part
      invariant Separate(ls, parts) && fresh(parts) && AllCreated(x, ls)
      invariant forall l :: l in ls ==> l in x.g.links && InPartition(x, l)
      invariant forall n, l :: n in g.nodes && g.nodes[n].part == part && n !in todo && l in LinksAt(g, n) ==> l in ls
      decreases todo
    {
      var n :| n in todo;
      LinksAtNode(x, n);
      ls, parts := AddLinks(g, c, part, LinksAt(g, n), ls, parts);
      todo := todo - {n};
    }
    forall l | l in x.g.links && InPartition(x, l)
      ensures l in ls
    {
      LinkAtSomeNode(x, l);
    }
    EndsOfCreated(x, ls);
  }

  lemma {:induction false} EndsOfCreated(x: Context, ls: map<LinkId, SimLink>)
    requires ValidContext(x) && AllCreated(x, ls)
    ensures forall l :: l in ls && !ls[l].OutSim? ==> l in x.g.links && ls[l].ll.to == x.g.links[l].to
  {
    hide SimLink.State, CreateSimLink;
    forall l | l in ls && !ls[l].OutSim?
      ensures l in x.g.links && ls[l].ll.to == x.g.links[l].to
    {
      assert Created(x, l, ls[l]);
    }
  }

  lemma {:induction false} NoLinksYet(x: Context)
    requires ValidContext(x)
    ensures Separate(map[], {}) && AllCreated(x, map[])
  {
  }

  lemma {:induction false} LinksAtNode(x: Context, n: NodeId)
    requires Wired(x.g) && n in x.g.nodes && x.g.nodes[n].part == x.part
    ensures forall l :: l in LinksAt(x.g, n) ==> EndsKnown(x.g, l) && InPartition(x, l)
  {
    assert NodeWired(x.g, n);
  }

  lemma {:induction false} LinkAtSomeNode(x: Context, l: LinkId)
    requires Wired(x.g) && l in x.g.links && InPartition(x, l)
    ensures exists n :: n in x.g.nodes && x.g.nodes[n].part == x.part && l in LinksAt(x.g, n)
  {
    var link := x.g.links[l];
    assert NodeWired(x.g, link.from) && NodeWired(x.g, link.to);
    if FromPart(x.g, l) == x.part {
      assert l in LinksAt(x.g, link.from);
    } else {
      assert l in LinksAt(x.g, link.to);
    }
  }

  class SimNetworkPartition {
    ghost const x: Context
    ghost const repr: set<object>
    const nodes: map<NodeId, seq<LinkId>>
    const links: map<LinkId, SimLink>
    var activeNodes: set<NodeId>
    var activeLinks: set<LinkId>
    var vehCounter: nat

    constructor (g: RoadNet, c: Config, part: Part)
      requires Wired(g) && ValidConfig(c) && forall l :: l in g.links ==> g.links[l].capacity >= 0.0
      ensures x == Context(g, c, part) && Valid() && fresh(repr)
      ensures View() == FromNetwork(x)
    {
      hide SimLink.Footprint, SimLink.State, SimLinksOf, FromNetwork, NodeWired;
      ghost var ctx := Context(g, c, part);
      var created;
      ghost var parts;
      created, parts := CreateSimLinks(g, c, part);
      x := ctx;
      nodes := map n | n in g.nodes && g.nodes[n].part == part :: g.nodes[n].inLinks;
      links := created;
      activeNodes, activeLinks, vehCounter := {}, {}, 0;
      repr := {this} + parts;
      new;
      FreshView(ctx);
    }

    lemma {:induction false} FreshView(ctx: Context)
      requires Apart() && ValidContext(ctx) && SimLinksOf(ctx, links)
      requires activeNodes == {} && activeLinks == {} && vehCounter == 0
      ensures View() == FromNetwork(ctx)
    {
      hide SimLink.State, SimLink.Footprint, CreateSimLink;
      assert View().links == FromNetwork(ctx).links;
    }

    /** No two links share an object. */
    ghost predicate Apart()
    {
      && this in repr
      && (forall l :: l in links ==> links[l].Footprint() <= repr - {this})
      && (forall l, m :: l in links && m in links && l != m ==> links[l].Footprint() !! links[m].Footprint())
    }

    ghost predicate Valid()
    {
      && Wired(x.g)
      && Apart()
      && (forall l :: l in x.g.links ==> x.g.links[l].capacity >= 0.0)
      && (forall l :: l in links && !links[l].OutSim? ==> l in x.g.links && links[l].ll.to == x.g.links[l].to)
      && (forall n :: n in nodes <==> n in x.g.nodes && x.g.nodes[n].part == x.part)
      && (forall n :: n in nodes ==> nodes[n] == x.g.nodes[n].inLinks)
    }

    ghost function LinkStates(): (r: map<LinkId, SimLinkState>)
      requires Apart()
      reads repr - {this}
      ensures r.Keys == links.Keys && forall l :: l in links ==> r[l] == links[l].State()
    {
      map l | l in links :: links[l].State()
    }

    ghost function View(): (net: NetState)
      requires Apart()
      reads this, repr
    {
      NetState(LinkStates(), activeLinks, activeNodes, vehCounter)
    }

    // ---------------------------------------------------------------- single links

    /** Only link l changed. */
    twostate lemma OneLinkChanged(l: LinkId)
      requires Apart() && l in links && unchanged(this)
      requires forall m :: m in links && m != l ==> unchanged(links[m].Footprint())
      ensures View() == old(View()).(links := old(View()).links[l := links[l].State()])
    {
      hide SimLink.Footprint, SimLink.State;
      forall m | m in links && m != l
        ensures links[m].State() == old(links[m].State())
      {
      }
      assert LinkStates() == old(LinkStates())[l := links[l].State()];
    }

    method PopVeh(l: LinkId) returns (veh: Vehicle)
      requires Apart() && l in links && !links[l].OutSim? && links[l].State().s.buffer != []
      modifies links[l].Footprint()
      ensures veh == old(View()).links[l].s.buffer[0]
      ensures View() == Put(old(View()), l, old(View()).links[l].(s := Pop(old(View()).links[l].s)))
    {
      hide SimLink.Footprint, SimLink.State, Pop;
      var popped := links[l].PopVeh();
      veh := popped.value;
      OneLinkChanged(l);
    }

    method PushVeh(l: LinkId, v: Vehicle, position: LinkPosition, now: Tick)
      requires Apart() && l in links && (links[l].OutSim? ==> position.QStart?)
      modifies links[l].Footprint()
      ensures !position.QStart? ==> !old(View()).links[l].Out?
      ensures View() == Put(old(View()), l, if position.QStart? then Push(old(View()).links[l], v, now)
                                            else old(View()).links[l].(s := PushWaiting(old(View()).links[l].s, v)))
    {
      hide SimLink.Footprint, SimLink.State, Push, PushWaiting;
      links[l].PushVeh(v, position, now);
      OneLinkChanged(l);
    }

    method OffersVeh(l: LinkId, now: Tick) returns (veh: Option<Vehicle>)
      requires Apart() && l in links && !links[l].OutSim?
      modifies links[l].Footprint()
      ensures !old(View()).links[l].Out? && Enabled(x, old(View()), Look(l, now))
      ensures veh == if NetSpec.OffersVeh(old(View()).links[l]) then Some(old(View()).links[l].s.buffer[0]) else None
      ensures View() == Apply(x, old(View()), Look(l, now))
    {
      hide SimLink.Footprint, SimLink.State, Offer, NetSpec.OffersVeh;
      veh := links[l].OffersVeh(now);
      OneLinkChanged(l);
    }

    method DoSimStep(l: LinkId, now: Tick) returns (ended: seq<Vehicle>)
      requires Apart() && l in links && !links[l].OutSim? && links[l].State().s.attr.tps > 0
      modifies links[l].Footprint()
      ensures ended == SimStep(old(View()).links[l].s, now).ended
      ensures View() == Put(old(View()), l, old(View()).links[l].(s := SimStep(old(View()).links[l].s, now).s))
    {
      hide SimLink.Footprint, SimLink.State, SimStep;
      ended := links[l].DoSimStep(now);
      OneLinkChanged(l);
    }

    method TakeVeh(l: LinkId) returns (vehicles: seq<Vehicle>)
      requires Apart() && l in links && links[l].State().Out?
      modifies links[l].Footprint()
      ensures vehicles == old(View()).links[l].o.q
      ensures View() == Put(old(View()), l, old(View()).links[l].(o := old(View()).links[l].o.(q := [])))
    {
      hide SimLink.Footprint, SimLink.State;
      vehicles := links[l].TakeVeh();
      OneLinkChanged(l);
    }

    method ApplyStorageCapUpdate(l: LinkId, released: real)
      requires Apart() && l in links && links[l].State().Out?
      modifies links[l].Footprint()
      ensures Enabled(x, old(View()), Credit(l, released))
      ensures View() == Apply(x, old(View()), Credit(l, released))
    {
      hide SimLink.Footprint, SimLink.State;
      links[l].ApplyStorageCapUpdate(released);
      OneLinkChanged(l);
    }

    // ---------------------------------------------------------------- vehicles and updates come in

    /** A vehicle starts its leg here, or it comes from another partition. */
    method SendVehEnRoute(v: Vehicle, routeBegin: bool, now: Tick, ghost p: real)
      requires Valid() && NetInvariant.Inv(x, p, View())
      requires v.Curr().Some? && v.Curr().value in links && (routeBegin ==> !links[v.Curr().value].OutSim?)
      requires NetInvariant.Placed(x.g, v.Curr().value, v) && 0.0 < v.pce <= p
      modifies repr
      ensures var a := if routeBegin then Begin(v) else Receive(v, now);
              Enabled(x, old(View()), a) && View() == Apply(x, old(View()), a)
      ensures NetInvariant.Inv(x, p, View())
    {
      hide NetInvariant.Inv, NetInvariant.Placed, Wired, SimLink.State, SimLink.Footprint, Apply, Enabled, LinkStates, Valid, Apart, View;
      ValidIsApart();
      var l := v.Curr().value;
      ghost var a := if routeBegin then Begin(v) else Receive(v, now);
      ghost var net := View();
      KindOf(l);
      EnterIs(x, net, v, a);
      NetInvariant.ApplyKeepsInv(x, p, net, a);
      hide Push, PushWaiting;
      PushVeh(l, v, if routeBegin then Waiting else QStart, now);
      CountIn(l);
    }

    method CountIn(l: LinkId)
      requires Apart()
      modifies this`vehCounter, this`activeLinks
      ensures View() == old(View()).(vehCounter := old(View()).vehCounter + 1, activeLinks := old(View()).activeLinks + {l})
    {
      vehCounter := vehCounter + 1;
      activeLinks := activeLinks + {l};
    }

    /** A sequence of storage updates, each for the upstream half of a split link. */
    method ApplyStorageCapUpdates(caps: seq<StorageUpdate>, ghost p: real)
      requires Valid() && NetInvariant.Inv(x, p, View())
      requires forall i :: 0 <= i < |caps| ==> caps[i].link in links && links[caps[i].link].OutSim?
      modifies repr
      ensures View() == Run(x, old(View()), Credits(caps)) && Legal(x, old(View()), Credits(caps))
      ensures NetInvariant.Inv(x, p, View())
    {
      hide NetInvariant.Inv, Valid, Apart, SimLink.State, SimLink.Footprint, LinkStates, Apply, Enabled, Run, Legal, View, Credits;
      ValidIsApart();
      ghost var start := View();
      NoCredits(caps);
      RunNothing(x, start);
      for i := 0 to |caps|
        invariant View() == Run(x, start, Credits(caps[..i])) && Legal(x, start, Credits(caps[..i]))
        invariant NetInvariant.Inv(x, p, View())
      {
        ghost var a := Credit(caps[i].link, caps[i].released);
        KindOf(caps[i].link);
        NetInvariant.ApplyKeepsInv(x, p, View(), a);
        RunSnoc(x, start, Credits(caps[..i]), a);
        ApplyStorageCapUpdate(caps[i].link, caps[i].released);
        NextCredit(caps, i);
      }
      assert caps[..|caps|] == caps;
    }

    /** Where and how vehicle v can be sent onto the network of this partition. */
    ghost predicate CanSend(v: Vehicle, routeBegin: bool, p: real)
    {
      && v.Curr().Some? && v.Curr().value in links && (routeBegin ==> !links[v.Curr().value].OutSim?)
      && NetInvariant.Placed(x.g, v.Curr().value, v) && 0.0 < v.pce <= p
    }

    /** Empties every link; what is returned are exactly the vehicles that were on the partition. */
    method Drain() returns (vehicles: seq<Vehicle>)
      requires Valid()
      modifies repr
      ensures Ids(vehicles) == NetInvariant.OnNet(old(View()))
      ensures forall l :: l in View().links ==> Contents(View().links[l]) == []
    {
      hide Valid, Apart, SimLink.State, SimLink.Footprint, Ids, Contents, NetInvariant.OnNet, Remaining, View;
      ValidIsApart();
      vehicles := [];
      ghost var start := View();
      var todo := links.Keys;
      NothingDrained(start);
      SameLinks();
      while todo != {}
        invariant todo <= links.Keys && View().links.Keys == start.links.Keys == links.Keys
        invariant forall l :: l in todo ==> View().links[l] == start.links[l]
        invariant forall l :: l in links && l !in todo ==> Contents(View().links[l]) == []
        invariant Ids(vehicles) + Remaining(start.links, todo) == NetInvariant.OnNet(start)
        decreases todo
      {
        var l :| l in todo;
        KindOf(l);
        var drained := DrainLink(l);
        DrainedMore(start.links, todo, l, vehicles, drained, NetInvariant.OnNet(start));
        vehicles := vehicles + drained;
        todo := todo - {l};
      }
      AllDrained(start.links);
    }

    lemma {:induction false} SameLinks()
      requires Apart()
      ensures View().links.Keys == links.Keys
    {
    }

    method DrainLink(l: LinkId) returns (vehicles: seq<Vehicle>)
      requires Apart() && l in links
      modifies links[l].Footprint()
      ensures vehicles == Contents(old(View()).links[l])
      ensures l in View().links && View() == Put(old(View()), l, View().links[l]) && Contents(View().links[l]) == []
    {
      hide SimLink.Footprint, SimLink.State, Contents;
      vehicles := links[l].Drain();
      OneLinkChanged(l);
    }

    // ---------------------------------------------------------------- moving over a node

    method Activate(l: LinkId)
      requires Apart()
      modifies this`activeLinks
      ensures View() == old(View()).(activeLinks := old(View()).activeLinks + {l})
    {
      activeLinks := activeLinks + {l};
    }

    method Deactivate(l: LinkId)
      requires Apart()
      modifies this`activeLinks
      ensures View() == old(View()).(activeLinks := old(View()).activeLinks - {l})
    {
      activeLinks := activeLinks - {l};
    }

    /** Whether link l offers a vehicle that is stuck or finds space on its next link. */
    method ShouldVehMoveOut(l: LinkId, now: Tick, ghost p: real) returns (should: bool)
      requires Valid() && NetInvariant.Inv(x, p, View()) && l in links && !links[l].OutSim?
      requires links[l].State().s.timer.Some? ==> links[l].State().s.timer.value <= now
      modifies repr
      ensures Enabled(x, old(View()), Look(l, now)) && View() == Apply(x, old(View()), Look(l, now))
      ensures NetInvariant.Inv(x, p, View())
      ensures should == ShouldMove(View(), l, now)
    {
      hide NetInvariant.Inv, Valid, Apart, SimLink.State, SimLink.Footprint, LinkStates, Apply, View, Stuck, Available, Offer;
      ValidIsApart();
      KindOf(l);
      ghost var net := View();
      LookIs(x, net, l, now);
      NetInvariant.ApplyKeepsInv(x, p, net, Look(l, now));
      hide Enabled, NetSpec.OffersVeh;
      var offered := OffersVeh(l, now);
      KindOf(l);
      if offered.None? {
        return false;
      }
      OfferedIs(x, p, View(), l);
      var next := offered.value.PeekNext().value;
      HasLink(next);
      KindOf(next);
      var stuck := links[l].IsVehStuck(now);
      var available := links[next].IsAvailable();
      should := stuck || available;
    }

    lemma {:induction false} HasLink(l: LinkId)
      requires Apart() && l in View().links
      ensures l in links
    {
    }

    /** Takes the head of link l's buffer and puts it on the link that its route names next. */
    method MoveVehicle(l: LinkId, now: Tick, ghost p: real)
      requires Valid() && NetInvariant.Inv(x, p, View()) && ShouldMove(View(), l, now)
      modifies repr
      ensures View() == Apply(x, old(View()), Move(l, now))
      ensures NetInvariant.Inv(x, p, View())
    {
      hide NetInvariant.Inv, Valid, Apart, SimLink.State, SimLink.Footprint, LinkStates, Available, Stuck, Push, Pop, View;
      ValidIsApart();
      ghost var net := View();
      HasLink(l);
      KindOf(l);
      MoveRoute(x, p, net, l);
      MoveIs(x, net, l, now);
      NetInvariant.ApplyKeepsInv(x, p, net, Move(l, now));
      hide Apply, Enabled, ShouldMove, NetSpec.MoveVehicle;
      var vehicle := PopVeh(l);
      var oldLink := vehicle.Curr().value;
      vehicle := vehicle.LeftLink();
      var newLink := vehicle.Curr().value;
      HasLink(newLink);
      KindOf(newLink);
      PushVeh(newLink, vehicle, QStart, now);
      Activate(newLink);
      KindOf(oldLink);
      var active := links[oldLink].IsActive();
      if !active {
        Deactivate(oldLink);
      }
    }

    /** The links ls of this partition lead to node n, each is named once, and none is an upstream half. */
    ghost predicate LeadHere(ls: seq<LinkId>, n: NodeId)
    {
      NoDuplicates(ls) && forall l :: l in ls ==> l in links && !links[l].OutSim? && LeadsTo(x, l, n)
    }

    /**
     * Looks at link l. If it may release a vehicle its capacity is added to what was passed, and
     * the vehicle moves if that reaches the draw.
     */
    method VisitLink(l: LinkId, sel0: real, drawn: real, now: Tick,
                     ghost p: real, ghost n: NodeId, ghost ls: seq<LinkId>, ghost start: NetState, ghost acts0: seq<NetAction>)
      returns (should: bool, sel: real, ghost moved: bool, ghost acts: seq<NetAction>)
      requires Valid() && LeadHere(ls, n) && l in ls
      requires NodeRun(x, p, n, now, start, View(), acts0) && TimersAt(x, n, View(), now)
      modifies repr
      ensures NodeRun(x, p, n, now, start, View(), acts)
      ensures Visited(x, p, n, ls, l, now, old(View()), View())
      ensures should ==> sel == sel0 + CapOf(x, l) && moved == (sel >= drawn)
      ensures !should ==> sel == sel0 && !moved && Blocked(View(), l, now)
      ensures moved ==> Buffered(View(), ls) < old(Buffered(View(), ls))
      ensures var looked := Apply(x, old(View()), Look(l, now));
              should == ShouldMove(looked, l, now) && View() == if moved then Apply(x, looked, Move(l, now)) else looked
      ensures acts == acts0 + (if moved then [Look(l, now), Move(l, now)] else [Look(l, now)])
    {
      hide NetInvariant.Inv, Valid, Apart, SimLink.State, SimLink.Footprint, LinkStates, Apply, View, CapOf, Enabled;
      hide Blocked, Buffered, OnlyAt, Run, Legal, ShouldMove;
      ValidIsApart();
      ghost var net := View();
      KindOf(l);
      TimerOf(x, n, net, l, now);
      hide TimersAt;
      should := ShouldVehMoveOut(l, now, p);
      ghost var looked := View();
      LookVisits(x, p, n, ls, net, l, now);
      NodeRunStep(x, p, n, now, start, net, acts0, Look(l, now));
      acts := acts0 + [Look(l, now)];
      moved := false;
      sel := sel0;
      if should {
        CapacityOf(l, p);
        var cap := links[l].CapacityPerTick();
        sel := sel + cap;
        if sel >= drawn {
          MoveEnabled(x, looked, l, now);
          MoveVisits(x, p, n, ls, looked, l, now);
          NodeRunStep(x, p, n, now, start, looked, acts, Move(l, now));
          MoveVehicle(l, now, p);
          acts := acts + [Move(l, now)];
          moved := true;
          hide TimersAt;
        }
      }
    }

    /** One round over the links ls, as Visits says: it takes a vehicle from a buffer, or it exhausts a link. */
    method VisitLinks(ls: seq<LinkId>, before: Round, drawn: real, now: Tick,
                      ghost p: real, ghost n: NodeId, ghost start: NetState, ghost acts0: seq<NetAction>, ghost nudges0: nat)
      returns (r: Round, ghost nudges: nat, ghost acts: seq<NetAction>)
      requires Valid() && LeadHere(ls, n) && ValidConfig(x.c)
      requires NodeRun(x, p, n, now, start, View(), acts0) && TimersAt(x, n, View(), now)
      requires RoundOk(x, View(), ls, Caps(x, ls), before, nudges0, now)
      requires NoneNegative(Caps(x, ls)) && 0.0 < before.avail && drawn < before.avail
      modifies repr
      ensures NodeRun(x, p, n, now, start, View(), acts) && TimersAt(x, n, View(), now)
      ensures RoundOk(x, View(), ls, Caps(x, ls), r, nudges, now) && nudges <= nudges0 + |ls|
      ensures SameExits(old(View()), View(), ls)
      ensures Todo(View(), ls, r.ex) < old(Todo(View(), ls, before.ex))
      ensures AllKnown(x, ls) && (View(), r) == Visits(x, old(View()), ls, |ls|, before, drawn, now)
      ensures acts == acts0 + VisitsActs(x, old(View()), ls, |ls|, before, drawn, now)
    {
      hide NetInvariant.Inv, Valid, Apart, SimLink.State, SimLink.Footprint, LinkStates, View, CapOf, InRound, Apply, ShouldMove;
      hide Blocked, Buffered, OnlyAt, TimersAt, Fruitless, Todo, OpenCap, SameExit;
      ValidIsApart();
      ghost var caps := Caps(x, ls);
      ghost var first := View();
      ghost var todo := Todo(first, ls, before.ex);
      r, acts, nudges := before, acts0, nudges0;
      FruitlessStart(caps, before, drawn);
      SameExitsRefl(first, ls);
      RoundBegins(x, first, ls, before, drawn, now, acts0);
      for i := 0 to |ls|
        invariant NodeRun(x, p, n, now, start, View(), acts) && TimersAt(x, n, View(), now)
        invariant RoundOk(x, View(), ls, caps, r, nudges, now) && nudges <= nudges0 + i
        invariant Todo(View(), ls, r.ex) <= todo && SameExits(first, View(), ls)
        invariant Todo(View(), ls, r.ex) < todo || Fruitless(caps, before, r, drawn, i)
        invariant InRound(x, first, View(), ls, i, before, r, drawn, now, acts0, acts)
      {
        if r.ex[i] {
          ExhaustedVisited(x, first, View(), ls, i, before, r, drawn, now, acts0, acts);
          PassExhausted(x, View(), ls, caps, r, nudges, now);
          ghost var was := r;
          r := r.(avail := r.avail - 0.000001);
          nudges := nudges + 1;
          if Fruitless(caps, before, was, drawn, i) {
            StillFruitless(caps, before, was, r, drawn, i);
          }
          continue;
        }
        ghost var net, was, acts1 := View(), r, acts;
        ghost var moved;
        var should, sel;
        should, sel, moved, acts := VisitLink(ls[i], r.sel, drawn, now, p, n, ls, start, acts);
        SameExitsTrans(first, net, View(), ls, ls[i]);
        if should {
          PassOpen(x, p, n, net, View(), ls, caps, r, nudges, i, now);
          r := r.(sel := sel);
          TodoAfter(net, View(), ls, r.ex);
          if !moved && Fruitless(caps, before, was, drawn, i) {
            StillFruitless(caps, before, was, r, drawn, i);
          }
        } else {
          PassBlocked(x, p, n, net, View(), ls, caps, r, nudges, i, now);
          CapacityOf(ls[i], p);
          var cap := links[ls[i]].CapacityPerTick();
          r := r.(avail := r.avail - cap, ex := r.ex[i := true]);
        }
        OpenVisited(x, first, net, View(), ls, i, before, was, r, drawn, now, acts0, acts1, acts);
      }
      NoFruitlessRound(x, first, ls, caps, before, r, nudges0, now, drawn);
      RoundEnds(x, first, View(), ls, before, r, drawn, now, acts0, acts);
    }

    /** The in-links of a node of this partition are in the partition, with their downstream end. */
    lemma {:induction false} InLinksHere(n: NodeId, p: real)
      requires Valid() && NetInvariant.Inv(x, p, View()) && n in nodes
      ensures LeadHere(nodes[n], n) && ValidConfig(x.c)
      ensures forall l :: l in links && LeadsTo(x, l, n) ==> l in nodes[n]
    {
      assert NodeWired(x.g, n);
      forall l | l in nodes[n]
        ensures l in links && !links[l].OutSim?
      {
        assert LeadsTo(x, l, n) && EndsKnown(x.g, l);
        assert InPartition(x, l) && l in View().links;
        assert NetInvariant.LinkOk(x, p, l, View().links[l]);
        KindOf(l);
      }
    }

    method GetActiveInLinks(n: NodeId, ghost p: real) returns (active: seq<LinkId>, acc: real)
      requires Valid() && NetInvariant.Inv(x, p, View()) && n in nodes && LeadHere(nodes[n], n) && ValidConfig(x.c)
      ensures active == Among(nodes[n], activeLinks)
      ensures acc == OpenCap(Caps(x, active), NoneExhausted(|active|), |active|)
    {
      hide NetInvariant.Inv, Valid, Apart, SimLink.State, SimLink.Footprint, LinkStates, View, CapOf, OpenCap, Among;
      ValidIsApart();
      var ins := nodes[n];
      active, acc := [], 0.0;
      NothingAmong(x, activeLinks);
      assert ins[..0] == [];
      for i := 0 to |ins|
        invariant active == Among(ins[..i], activeLinks) && forall l :: l in active ==> l in ins
        invariant acc == OpenCap(Caps(x, active), NoneExhausted(|active|), |active|)
      {
        AmongSnoc(ins[..i], ins[i], activeLinks);
        assert ins[..i + 1] == ins[..i] + [ins[i]];
        if ins[i] in activeLinks {
          CapacityOf(ins[i], p);
          StartCap(x, active, ins[i]);
          var cap := links[ins[i]].CapacityPerTick();
          active := active + [ins[i]];
          acc := acc + cap;
        }
      }
      assert ins[..|ins|] == ins;
    }

    /** Asks the links ls in order until one offers a vehicle. */
    method AnyLinkOffers(ls: seq<LinkId>, t: Tick, ghost p: real, ghost n: NodeId, ghost now: Tick, ghost start: NetState, ghost acts0: seq<NetAction>)
      returns (any: bool, ghost acts: seq<NetAction>)
      requires Valid() && LeadHere(ls, n)
      requires NodeRun(x, p, n, now, start, View(), acts0) && TimersAt(x, n, View(), t)
      modifies repr
      ensures NodeRun(x, p, n, now, start, View(), acts) && TimersAt(x, n, View(), t)
      ensures SameOffers(old(View()), View())
      ensures any <==> exists l :: l in ls && l in View().links && NetSpec.OffersVeh(View().links[l])
      ensures forall m :: Blocked(old(View()), m, now) ==> Blocked(View(), m, now)
      ensures View() == AskUntil(x, old(View()), ls, t) && acts0 <= acts
    {
      hide NetInvariant.Inv, Valid, Apart, SimLink.State, SimLink.Footprint, LinkStates, View, Apply, Enabled, Blocked, TimersAt, NodeRun;
      ValidIsApart();
      ghost var first := View();
      acts := acts0;
      any := false;
      for i := 0 to |ls|
        invariant NodeRun(x, p, n, now, start, View(), acts) && TimersAt(x, n, View(), t)
        invariant SameOffers(first, View())
        invariant !any && forall j :: 0 <= j < i ==> ls[j] in first.links && !NetSpec.OffersVeh(first.links[ls[j]])
        invariant forall m :: Blocked(first, m, now) ==> Blocked(View(), m, now)
        invariant AskUntil(x, first, ls, t) == AskUntil(x, View(), ls[i..], t) && acts0 <= acts
      {
        assert ls[i..][1..] == ls[i + 1..] && ls[i..][0] == ls[i];
        ghost var net := View();
        KindOf(ls[i]);
        var offered := OffersVeh(ls[i], t);
        AskKeeps(x, p, n, now, start, net, acts, ls[i], t);
        acts := acts + [Look(ls[i], t)];
        if offered.Some? {
          return true, acts;
        }
      }
    }

    /**
     * Moves vehicles over node n, links with more capacity first more likely. The loop terminates
     * for every sequence of draws and does what Rounds says. Afterwards every in-link of the node
     * is blocked, unless a vehicle on one of them was smaller than the nudges of one round.
     */
    method MoveNodeCapacityPriority(n: NodeId, now: Tick, ghost p: real)
      returns (offers: bool, ghost acts: seq<NetAction>, ghost draws: seq<real>)
      requires Valid() && NetInvariant.Inv(x, p, View()) && n in nodes && now <= U64_MAX
      requires TimersAt(x, n, View(), now)
      modifies repr
      ensures NodeRun(x, p, n, now, old(View()), View(), acts) && TimersAt(x, n, View(), Next(now))
      ensures offers <==> exists l :: l in nodes[n] && l in View().links && NetSpec.OffersVeh(View().links[l])
      ensures forall l :: l in nodes[n] ==> l in x.g.links && l in View().links && Settled(old(View()), View(), l, nodes[n], now)
      ensures n in x.g.nodes && Wired(x.g) && ValidConfig(x.c)
      ensures AllKnown(x, Among(nodes[n], old(activeLinks)))
      ensures draws != [] ==> FirstByCapacity(x, old(View()), Among(nodes[n], old(activeLinks)), draws[0], acts, now)
      ensures NodeEnds(x, old(View()), n, draws, now) && View() == NodeWork(x, old(View()), n, draws, now)
    {
      hide NetInvariant.Inv, Valid, Apart, SimLink.State, SimLink.Footprint, LinkStates, View, CapOf, TimersAt, NodeRun;
      hide Blocked, Buffered, RoundOk, Todo, OpenCap, Among, NetSpec.OffersVeh, SameExits, Visits, Share, Rounds, AskUntil, Settled, VisitsActs, FirstByCapacity, AtNode, Looping, EndsWith;
      ValidIsApart();
      InLinksHere(n, p);
      ghost var start := View();
      NodeKnown(n);
      var active, avail := GetActiveInLinks(n, p);
      ActiveHere(n, active, now, p);
      var r := Round(avail, 0.0, NoneExhausted(|active|));
      LoopBegins(x, p, n, start, active, now);
      ghost var nudges: nat := 0;
      acts, draws := [], [];
      while r.avail > 0.0000000001
        invariant Looping(x, p, n, start, View(), active, r, nudges, acts, draws, now)
        decreases Todo(View(), active, r.ex)
      {
        LoopParts(x, p, n, start, View(), active, r, nudges, acts, draws, now);
        var draw := Random();
        ShareBelow(draw, r.avail);
        ghost var net, was, nudges1, acts1 := View(), r, nudges, acts;
        r, nudges, acts := VisitLinks(active, r, Share(draw, r.avail), now, p, n, start, acts, nudges);
        LoopGoesOn(x, p, n, start, net, View(), active, was, r, nudges1, nudges, acts1, acts, draws, draw, now);
        draws := draws + [draw];
      }
      LoopParts(x, p, n, start, View(), active, r, nudges, acts, draws, now);
      ghost var mid, rounds := View(), acts;
      TimersLater(x, n, mid, now, Next(now));
      offers, acts := AnyLinkOffers(active, Next(now), p, n, now, start, acts);
      assert acts == rounds + acts[|rounds|..];
      LoopEnds(x, p, n, start, mid, active, r, nudges, rounds, acts[|rounds|..], draws, now);
      NodeSettles(x, p, n, start, mid, View(), nodes[n], active, draws, now);
    }

    /**
     * Lets every active node work and puts those to rest whose links have nothing to offer for the
     * next tick. Afterwards every link of the partition is settled, also those of nodes that were
     * not looked at.
     */
    method MoveNodes(now: Tick, ghost p: real)
      returns (ghost acts: seq<NetAction>, ghost mid: NetState, ghost order: seq<NodeId>, ghost draws: map<NodeId, seq<real>>)
      requires Valid() && NetInvariant.Inv(x, p, View()) && TimersUpTo(View(), now) && now <= U64_MAX
      modifies repr
      ensures View() == Run(x, old(View()), acts) && Legal(x, old(View()), acts)
      ensures NetInvariant.Inv(x, p, View()) && TimersUpTo(View(), Next(now))
      ensures forall a :: a in acts ==> a.Look? || a.Rest? || (a.Move? && a.now == now)
      ensures NodesWorked(x, old(View()), mid, order, draws, old(View()).activeNodes, now) && View() == Rested(x, mid)
      ensures forall n :: n in View().activeNodes <==> n in old(View()).activeNodes && !NothingOffered(x, View(), n)
      ensures forall l :: l in View().links ==>
                EndsKnown(x.g, l) && Settled(old(View()), View(), l, Beside(x, l), now)
    {
      hide NetInvariant.Inv, Valid, Apart, SimLink.State, SimLink.Footprint, LinkStates, TimersAt, TimersUpTo, OnlyAt;
      hide Blocked, Buffered, NetSpec.OffersVeh, Settled, DoneSoFar, Run, Legal, Apply, Enabled, Wired;
      hide NothingOffered, NodeWired, NodesWorked, NodeWork, NodeEnds, Rested;
      ValidIsApart();
      ghost var start := View();
      var todo := activeNodes;
      var deactivate: set<NodeId> := {};
      acts, order, draws := [], [], map[];
      RunNothing(x, start);
      WiredHere();
      NodesHere(p);
      NoneWorked(x, start, now);
      NothingDone(x, p, start, now);
      TimersUpToLater(start, now, Next(now));
      forall n | n in todo
        ensures TimersAt(x, n, start, now)
      {
        TimersOfAll(x, n, start, now);
      }
      assert start.activeNodes - todo == {} && start.activeNodes - deactivate == start.activeNodes;
      while todo != {}
        invariant todo <= start.activeNodes && start.activeNodes <= nodes.Keys
        invariant NetInvariant.Inv(x, p, View()) && TimersUpTo(View(), Next(now)) && View().activeNodes == start.activeNodes
        invariant Run(x, start, acts) == View().(activeNodes := start.activeNodes - deactivate) && Legal(x, start, acts)
        invariant forall a :: a in acts ==> a.Look? || a.Rest? || (a.Move? && a.now == now)
        invariant DoneSoFar(x, start, View(), start.activeNodes - todo, now)
        invariant forall n :: n in todo ==> TimersAt(x, n, View(), now)
        invariant deactivate <= start.activeNodes - todo
        invariant forall n :: n in start.activeNodes - todo ==> (n in deactivate <==> NothingOffered(x, View(), n))
        invariant NodesWorked(x, start, View(), order, draws, start.activeNodes - todo, now)
        decreases todo
      {
        var n :| n in todo;
        ghost var net := View();
        var active;
        ghost var more;
        ghost var own;
        active, more, own := MoveNodeCapacityPriority(n, now, p);
        NodeKnown(n);
        OneMoreWorked(x, start, net, View(), order, draws, start.activeNodes - todo, n, own, now);
        order, draws := order + [n], draws[n := own];
        OffersBehind(n, p);
        OthersKeepOffers(x, p, n, now, net, View(), more, start.activeNodes - todo);
        NodeFinished(x, p, n, now, start, net, View(), acts, more, start.activeNodes - deactivate, todo);
        acts := acts + more;
        assert start.activeNodes - (todo - {n}) == start.activeNodes - todo + {n};
        todo := todo - {n};
        if !active {
          NodeRests(n, p, View().(activeNodes := start.activeNodes - deactivate));
          assert start.activeNodes - deactivate - {n} == start.activeNodes - (deactivate + {n});
          deactivate := deactivate + {n};
          RunSnoc(x, start, acts, Rest(n));
          acts := acts + [Rest(n)];
        }
      }
      assert start.activeNodes - {} == start.activeNodes;
      forall l | l in View().links
        ensures EndsKnown(x.g, l) && Settled(start, View(), l, Beside(x, l), now)
      {
        AllSettled(x, p, start, View(), l, now);
      }
      mid := View();
      RestAll(deactivate);
      RestedIs(x, mid, View(), deactivate);
      SameLinksOffer(x, mid, View());
      RestKeeps(x, p, start, mid, View(), acts, now);
    }

    lemma {:induction false} NodesHere(p: real)
      requires Valid() && NetInvariant.Inv(x, p, View())
      ensures activeNodes <= nodes.Keys && View().activeNodes == activeNodes && ValidConfig(x.c)
    {
      hide NetInvariant.LinksOk, NetInvariant.ActiveOk, NetInvariant.OnNet, Wired, Apart;
      assert forall n :: n in View().activeNodes ==> n in nodes;
    }

    /** The links behind node n, as the node lists them. */
    lemma {:induction false} OffersBehind(n: NodeId, p: real)
      requires Valid() && NetInvariant.Inv(x, p, View()) && n in nodes
      ensures NothingOffered(x, View(), n) <==> !exists l :: l in nodes[n] && l in View().links && NetSpec.OffersVeh(View().links[l])
    {
      hide NetInvariant.Inv, NetSpec.OffersVeh;
      InLinksHere(n, p);
    }

    lemma {:induction false} WiredHere()
      requires Valid()
      ensures Wired(x.g)
    {
    }

    lemma {:induction false} NodeKnown(n: NodeId)
      requires Valid() && n in nodes
      ensures n in x.g.nodes && NodeWired(x.g, n) && nodes[n] == x.g.nodes[n].inLinks && Wired(x.g)
    {
    }

    /** A node whose in-links offer nothing may rest. */
    lemma {:induction false} NodeRests(n: NodeId, p: real, net: NetState)
      requires Valid() && NetInvariant.Inv(x, p, View()) && n in nodes && net.links == View().links
      requires !exists l :: l in nodes[n] && l in View().links && NetSpec.OffersVeh(View().links[l])
      ensures Enabled(x, net, Rest(n)) && Apply(x, net, Rest(n)) == net.(activeNodes := net.activeNodes - {n})
    {
      hide NetInvariant.Inv, NetSpec.OffersVeh;
      InLinksHere(n, p);
    }

    method RestAll(deactivate: set<NodeId>)
      requires Apart()
      modifies this`activeNodes
      ensures View() == old(View()).(activeNodes := old(activeNodes) - deactivate)
    {
      activeNodes := activeNodes - deactivate;
    }

    // ---------------------------------------------------------------- the steps of the links

    method ActivateNode(n: NodeId)
      requires Apart()
      modifies this`activeNodes
      ensures View() == old(View()).(activeNodes := old(View()).activeNodes + {n})
    {
      activeNodes := activeNodes + {n};
    }

    /** The step of a link with a queue; its node becomes active if there is an offer for the next tick. */
    method MoveLocalLink(l: LinkId, now: Tick) returns (ended: seq<Vehicle>, isActive: bool)
      requires Valid() && l in links && !links[l].OutSim? && links[l].State().s.attr.tps > 0
      modifies repr
      ensures var sl := old(View()).links[l];
              var f := SimStep(sl.s, now);
              && l in x.g.links && ended == f.ended && isActive == Active(f.s)
              && View() == Put(old(View()), l, sl.(s := Offer(f.s, Next(now)))).(activeNodes :=
                   if Offers(f.s) then old(View()).activeNodes + {x.g.links[l].to} else old(View()).activeNodes)
    {
      hide Valid, Apart, SimLink.State, SimLink.Footprint, LinkStates, SimStep, Apply, Enabled, Offer, Offers, Active, NetSpec.OffersVeh, View;
      ToNode(l);
      ValidIsApart();
      KindOf(l);
      ended := DoSimStep(l, now);
      KindOf(l);
      isActive := links[l].IsActive();
      var offered := ToNodesActive(l, now);
      if offered {
        ActivateNode(links[l].ll.to);
      }
    }

    method ToNodesActive(l: LinkId, now: Tick) returns (active: bool)
      requires Apart() && l in links && !links[l].OutSim?
      modifies links[l].Footprint()
      ensures !old(View()).links[l].Out? && active == Offers(old(View()).links[l].s)
      ensures View() == Put(old(View()), l, old(View()).links[l].(s := Offer(old(View()).links[l].s, Next(now))))
    {
      hide Apart, SimLink.State, SimLink.Footprint, LinkStates, Apply, Enabled, Offer, Offers, NetSpec.OffersVeh, View;
      KindOf(l);
      LookOffers(x, View(), l, Next(now));
      var offered := OffersVeh(l, Next(now));
      active := offered.Some?;
    }

    lemma {:induction false} ToNode(l: LinkId)
      requires Valid() && l in links && !links[l].OutSim?
      ensures l in x.g.links && links[l].ll.to == x.g.links[l].to
    {
    }

    /**
     * The step of one link. Removing the link from the active ones and counting the vehicles that
     * left comes later; virtual is the state in which that had been done after every link so far.
     */
    method MoveLink(l: LinkId, now: Tick, ghost p: real, ghost virtual: NetState)
      returns (ended: seq<Vehicle>, exits: seq<Vehicle>, updates: seq<StorageUpdate>, isActive: bool)
      requires Valid() && NetInvariant.Inv(x, p, virtual) && l in links
      requires virtual.links == View().links && virtual.activeNodes == activeNodes
      modifies repr
      ensures var a := StepLink(l, now);
              var r := Apply(x, virtual, a);
              && Enabled(x, virtual, a)
              && View() == old(View()).(links := r.links, activeNodes := r.activeNodes)
              && r.activeLinks == (if isActive then virtual.activeLinks else virtual.activeLinks - {l})
              && r.vehCounter == virtual.vehCounter - |exits| - |ended|
              && ended == Ends(x, virtual, a) && exits == Exits(x, virtual, a) && updates == Releases(x, virtual, a)
    {
      hide NetInvariant.Inv, Valid, Apart, SimLink.State, SimLink.Footprint, LinkStates, SimStep, Active, Offers;
      ValidIsApart();
      KindOf(l);
      StepIs(x, p, virtual, l, now);
      hide Apply, Enabled, Exits, Ends, Releases;
      ended, exits, updates := [], [], [];
      match links[l] {
        case LocalSim(ll) =>
          ended, isActive := MoveLocalLink(l, now);
        case InSim(fromPart, ll) =>
          var before := Occupied(l);
          ended, isActive := MoveLocalLink(l, now);
          KindOf(l);
          var after := Occupied(l);
          var diff := before - after;
          assert diff >= 0.0;
          if diff > 0.0 {
            updates := [StorageUpdate(l, fromPart, diff)];
          }
        case OutSim(ol) =>
          exits := TakeVeh(l);
          isActive := false;
      }
    }

    method Occupied(l: LinkId) returns (used: real)
      requires Apart() && l in links && !links[l].OutSim?
      ensures used == StorageOf(links[l].State()).used
    {
      used := links[l].ll.storageCap.used;
    }

    /**
     * Steps every active link, and with them every link on which a vehicle is. The result holds
     * exactly the vehicles that leave the partition, those that end their leg, and the storage
     * released on split links.
     */
    method MoveLinks(now: Tick, ghost p: real)
      returns (exits: seq<Vehicle>, ends: seq<Vehicle>, updates: seq<StorageUpdate>, ghost acts: seq<NetAction>)
      requires Valid() && NetInvariant.Inv(x, p, View()) && TimersUpTo(View(), Next(now))
      modifies repr
      ensures View() == Run(x, old(View()), acts) && Legal(x, old(View()), acts)
      ensures NetInvariant.Inv(x, p, View()) && TimersUpTo(View(), Next(now))
      ensures exits == RunExits(x, old(View()), acts) && ends == RunEnds(x, old(View()), acts)
      ensures updates == RunReleases(x, old(View()), acts)
      ensures forall a :: a in acts ==> a.StepLink? && a.now == now
      ensures SteppedExactly(old(View()), View(), old(View()).activeLinks, now)
    {
      hide NetInvariant.Inv, Valid, Apart, SimLink.State, SimLink.Footprint, LinkStates, TimersUpTo, SteppedExactly;
      hide Run, Legal, RunExits, RunEnds, RunReleases, Apply, Enabled, Exits, Ends, Releases;
      ValidIsApart();
      ghost var start := View();
      ghost var virtual := start;
      var todo := activeLinks;
      var deactivate: set<LinkId> := {};
      exits, ends, updates, acts := [], [], [], [];
      RunNothing(x, start);
      NothingStepped(start, now);
      ActiveLinksHere(p);
      assert start.activeLinks - todo == {} && start.activeLinks - deactivate == start.activeLinks;
      while todo != {}
        invariant todo <= start.activeLinks && start.activeLinks <= links.Keys
        invariant View() == start.(links := virtual.links, activeNodes := virtual.activeNodes)
        invariant virtual.activeLinks == start.activeLinks - deactivate
        invariant virtual.vehCounter == start.vehCounter - |exits| - |ends|
        invariant virtual == Run(x, start, acts) && Legal(x, start, acts)
        invariant NetInvariant.Inv(x, p, virtual) && TimersUpTo(virtual, Next(now))
        invariant exits == RunExits(x, start, acts) && ends == RunEnds(x, start, acts) && updates == RunReleases(x, start, acts)
        invariant forall a :: a in acts ==> a.StepLink? && a.now == now
        invariant SteppedExactly(start, virtual, start.activeLinks - todo, now)
        decreases todo
      {
        var l :| l in todo;
        ghost var a := StepLink(l, now);
        var ended, left, released, isActive := MoveLink(l, now, p, virtual);
        LinkStepped(x, p, start, virtual, acts, l, now, start.activeLinks - todo);
        RunSnoc(x, start, acts, a);
        if !isActive {
          assert start.activeLinks - deactivate - {l} == start.activeLinks - (deactivate + {l});
          deactivate := deactivate + {l};
        }
        ends, exits, updates, acts := ends + ended, exits + left, updates + released, acts + [a];
        virtual := Apply(x, virtual, a);
        assert start.activeLinks - (todo - {l}) == start.activeLinks - todo + {l};
        todo := todo - {l};
      }
      CounterNotNegative(x, p, virtual);
      assert start.activeLinks - {} == start.activeLinks;
      Settle(deactivate, |exits| + |ends|);
    }

    /** Bookkeeping: empty links are no longer active, and vehicles that left are no longer counted. */
    method Settle(deactivate: set<LinkId>, left: nat)
      requires Apart() && left <= View().vehCounter
      modifies this`activeLinks, this`vehCounter
      ensures View() == old(View()).(activeLinks := old(View()).activeLinks - deactivate, vehCounter := old(View()).vehCounter - left)
    {
      activeLinks := activeLinks - deactivate;
      vehCounter := vehCounter - left;
    }

    lemma {:induction false} ActiveLinksHere(p: real)
      requires Valid() && NetInvariant.Inv(x, p, View())
      ensures activeLinks <= links.Keys && View().activeLinks == activeLinks
    {
      hide NetInvariant.LinksOk, NetInvariant.NodesOk, NetInvariant.OnNet, Wired, Apart;
      forall l | l in activeLinks
        ensures l in links
      {
        HasLink(l);
      }
    }

    lemma {:induction false} ActiveHere(n: NodeId, active: seq<LinkId>, now: Tick, p: real)
      requires Valid() && NetInvariant.Inv(x, p, View()) && n in nodes && LeadHere(nodes[n], n) && ValidConfig(x.c)
      requires active == Among(nodes[n], activeLinks)
      ensures LeadHere(active, n) && NoneNegative(Caps(x, active)) && AllKnown(x, active)
      ensures forall l :: l in x.g.links ==> x.g.links[l].capacity >= 0.0
      ensures TimersAt(x, n, View(), now) ==> AtNode(x, p, n, View(), active, now)
      ensures View().activeLinks == activeLinks && forall l :: l in nodes[n] ==> l in View().links
    {
      hide NetInvariant.Inv, CapOf;
      AmongOnce(nodes[n], activeLinks);
      forall i | 0 <= i < |active|
        ensures CapOf(x, active[i]) >= 0.0
      {
        CapacityOf(active[i], p);
      }
      forall l | l in nodes[n]
        ensures l in View().links
      {
        KindOf(l);
      }
    }

    lemma {:induction false} CapacityOf(l: LinkId, p: real)
      requires Valid() && NetInvariant.Inv(x, p, View()) && l in links && !links[l].OutSim?
      ensures l in x.g.links && !links[l].State().Out?
      ensures links[l].State().s.flow.perTick == CapOf(x, l) && CapOf(x, l) >= 0.0
    {
      KindOf(l);
      assert l in x.g.links;
      hide NetInvariant.Inv, CapOf;
      CapIsFixed(x, p, View(), l);
    }

    lemma {:induction false} ValidIsApart()
      requires Valid()
      ensures Apart()
    {
    }

    lemma {:induction false} KindOf(l: LinkId)
      requires Apart() && l in links
      ensures links[l].Footprint() <= repr - {this}
      ensures l in View().links && View().links[l] == links[l].State()
      ensures View().links[l].Out? == links[l].OutSim? && View().links[l].In? == links[l].InSim?
      ensures links[l].InSim? ==> View().links[l].fromPart == links[l].fromPart
    {
    }
  }

  lemma {:induction false} EnterIs(x: Context, net: NetState, v: Vehicle, a: NetAction)
    requires a == Begin(v) || (a.Receive? && a.v == v)
    requires v.Curr().Some? && v.Curr().value in net.links && (a.Begin? ==> !net.links[v.Curr().value].Out?)
    ensures Enabled(x, net, a)
    ensures var l := v.Curr().value;
            Apply(x, net, a) ==
            Put(net, l, if a.Begin? then net.links[l].(s := PushWaiting(net.links[l].s, v)) else Push(net.links[l], v, a.now))
              .(vehCounter := net.vehCounter + 1, activeLinks := net.activeLinks + {l})
  {
  }

  ghost function Credits(caps: seq<StorageUpdate>): (r: seq<NetAction>)
    ensures |r| == |caps| && forall i :: 0 <= i < |caps| ==> r[i] == Credit(caps[i].link, caps[i].released)
  {
    seq(|caps|, i requires 0 <= i < |caps| => Credit(caps[i].link, caps[i].released))
  }

  lemma {:induction false} NoCredits(caps: seq<StorageUpdate>)
    ensures Credits(caps[..0]) == []
  {
  }

  lemma {:induction false} NextCredit(caps: seq<StorageUpdate>, i: nat)
    requires i < |caps|
    ensures Credits(caps[..i + 1]) == Credits(caps[..i]) + [Credit(caps[i].link, caps[i].released)]
  {
  }

  lemma {:induction false} RunNothing(x: Context, net: NetState)
    ensures Run(x, net, []) == net && Legal(x, net, [])
    ensures RunExits(x, net, []) == [] && RunEnds(x, net, []) == [] && RunReleases(x, net, []) == []
  {
  }

  lemma {:induction false} LookIs(x: Context, net: NetState, l: LinkId, t: Tick)
    requires l in net.links && !net.links[l].Out?
    ensures Enabled(x, net, Look(l, t))
    ensures var r := Apply(x, net, Look(l, t));
            && l in r.links && !r.links[l].Out? && r.links[l].s.buffer == net.links[l].s.buffer
            && OffersVeh(r.links[l]) == OffersVeh(net.links[l])
            && (!OffersVeh(r.links[l]) ==> !MoveIsDefined(r, l))
            && (OffersVeh(r.links[l]) ==> r.links[l].s.timer == Start(net.links[l].s.timer, t))
  {
  }

  lemma {:induction false} OfferedIs(x: Context, p: real, net: NetState, l: LinkId)
    requires NetInvariant.Inv(x, p, net) && l in net.links && OffersVeh(net.links[l])
    ensures MoveIsDefined(net, l)
  {
    NetInvariant.OfferIsMovable(x, p, net, l);
  }

  /** The route pointer of the vehicle that link l offers, before and after it leaves l. */
  lemma {:induction false} MoveRoute(x: Context, p: real, net: NetState, l: LinkId)
    requires NetInvariant.Inv(x, p, net) && MoveIsDefined(net, l)
    ensures var v := net.links[l].s.buffer[0];
            v.Curr() == Some(l) && v.LeftLink().Curr() == Some(NextOf(net, l))
  {
    assert NetInvariant.LinksOk(x, p, net) && ValidConfig(x.c);
    hide NetInvariant.Inv, NetInvariant.LinksOk, NetInvariant.Connected;
    NetInvariant.MovedIsPlaced(x, p, net, l);
  }

  /** A move in the steps in which it is made. */
  lemma {:induction false} MoveIs(x: Context, net: NetState, l: LinkId, now: Tick)
    requires ShouldMove(net, l, now)
    ensures Enabled(x, net, Move(l, now))
    ensures var n := NextOf(net, l);
            var popped := Put(net, l, net.links[l].(s := Pop(net.links[l].s)));
            var pushed := Put(popped, n, Push(popped.links[n], net.links[l].s.buffer[0].LeftLink(), now));
            && !pushed.links[l].Out?
            && Apply(x, net, Move(l, now)) == pushed.(activeLinks :=
                 if Active(pushed.links[l].s) then net.activeLinks + {n} else net.activeLinks + {n} - {l})
  {
    hide TravelTicks;
  }

  lemma {:induction false} TimerOf(x: Context, n: NodeId, net: NetState, l: LinkId, now: Tick)
    requires TimersAt(x, n, net, now) && l in net.links && !net.links[l].Out? && LeadsTo(x, l, n)
    ensures net.links[l].s.timer.Some? ==> net.links[l].s.timer.value <= now
  {
  }

  lemma {:induction false} MoveEnabled(x: Context, net: NetState, l: LinkId, now: Tick)
    requires ShouldMove(net, l, now)
    ensures Enabled(x, net, Move(l, now))
  {
  }

  lemma {:induction false} NothingAmong(x: Context, s: set<LinkId>)
    requires ValidConfig(x.c)
    ensures Among([], s) == [] && OpenCap(Caps(x, []), NoneExhausted(0), 0) == 0.0
  {
  }

  lemma {:induction false} LookSameOffers(x: Context, net: NetState, l: LinkId, t: Tick)
    requires Enabled(x, net, Look(l, t))
    ensures SameOffers(net, Apply(x, net, Look(l, t)))
  {
  }

  /** Asking one more link for its offer. */
  lemma {:induction false} AskKeeps(x: Context, p: real, n: NodeId, now: Tick, start: NetState, net: NetState, acts: seq<NetAction>, l: LinkId, t: Tick)
    requires NodeRun(x, p, n, now, start, net, acts) && TimersAt(x, n, net, t) && LeadsTo(x, l, n)
    requires Enabled(x, net, Look(l, t))
    ensures var r := Apply(x, net, Look(l, t));
            && NodeRun(x, p, n, now, start, r, acts + [Look(l, t)]) && TimersAt(x, n, r, t)
            && SameOffers(net, r)
            && forall m :: Blocked(net, m, now) ==> Blocked(r, m, now)
  {
    hide NodeRun, TimersAt, Blocked, Enabled, Apply, SameOffers;
    var r := Apply(x, net, Look(l, t));
    NodeRunStep(x, p, n, now, start, net, acts, Look(l, t));
    LookKeepsTimers(x, net, l, t, n, t);
    LookSameOffers(x, net, l, t);
    forall m | Blocked(net, m, now)
      ensures Blocked(r, m, now)
    {
      LookKeepsBlocked(x, net, l, t, m, now);
    }
  }

  /** One more node has worked. */
  lemma {:induction false} NodeFinished(x: Context, p: real, n: NodeId, now: Tick, start: NetState, a: NetState, b: NetState,
                                        acts: seq<NetAction>, more: seq<NetAction>, s: set<NodeId>, todo: set<NodeId>)
    requires n in todo && todo <= start.activeNodes && n in x.g.nodes && NodeWired(x.g, n) && ValidConfig(x.c)
    requires Run(x, start, acts) == a.(activeNodes := s) && Legal(x, start, acts)
    requires NodeRun(x, p, n, now, a, b, more) && TimersAt(x, n, b, Next(now)) && TimersUpTo(a, Next(now))
    requires DoneSoFar(x, start, a, start.activeNodes - todo, now)
    requires forall m :: m in todo ==> TimersAt(x, m, a, now)
    requires forall l :: l in x.g.nodes[n].inLinks ==>
               l in x.g.links && l in b.links && Settled(a, b, l, x.g.nodes[n].inLinks, now)
    ensures NetInvariant.Inv(x, p, b) && TimersUpTo(b, Next(now)) && b.activeNodes == a.activeNodes
    ensures Run(x, start, acts + more) == b.(activeNodes := s) && Legal(x, start, acts + more)
    ensures forall c :: c in more ==> c.Look? || (c.Move? && c.now == now)
    ensures DoneSoFar(x, start, b, start.activeNodes - (todo - {n}), now)
    ensures forall m :: m in todo - {n} ==> TimersAt(x, m, b, now)
  {
    hide NetInvariant.Inv, Settled, DoneSoFar, Run, Legal, TimersAt, TimersUpTo, NodeWired, NoRoomMade, SameExit;
    TimersTogether(x, n, a, b, Next(now));
    RunIgnoresNodes(x, a, more, s);
    RunConcat(x, start, acts, more);
    NodeIsDone(x, start, a, b, start.activeNodes - todo, n, now);
    assert start.activeNodes - todo + {n} == start.activeNodes - (todo - {n});
    forall m | m in todo - {n}
      ensures TimersAt(x, m, b, now)
    {
      OthersKeepTimers(x, n, a, b, m, now);
    }
  }

  /** Putting nodes to rest changes nothing about the links. */
  lemma {:induction false} RestKeeps(x: Context, p: real, start: NetState, a: NetState, b: NetState, acts: seq<NetAction>, now: Tick)
    requires NetInvariant.Inv(x, p, start) && b == Run(x, start, acts)
    requires forall c :: c in acts ==> c.Look? || c.Rest? || c.Move?
    requires b == a.(activeNodes := b.activeNodes) && TimersUpTo(a, Next(now)) && ValidConfig(x.c)
    requires forall l :: l in a.links ==> EndsKnown(x.g, l) && Settled(start, a, l, Beside(x, l), now)
    ensures NetInvariant.Inv(x, p, b) && TimersUpTo(b, Next(now))
    ensures forall l :: l in b.links ==> EndsKnown(x.g, l) && Settled(start, b, l, Beside(x, l), now)
  {
    assert forall l :: Blocked(a, l, now) == Blocked(b, l, now);
    hide NetInvariant.Inv, Blocked, Run;
    NetInvariant.RunKeepsInv(x, p, start, acts);
  }

  lemma {:induction false} LookOffers(x: Context, net: NetState, l: LinkId, t: Tick)
    requires l in net.links && !net.links[l].Out?
    ensures Apply(x, net, Look(l, t)) == Put(net, l, net.links[l].(s := Offer(net.links[l].s, t)))
    ensures OffersVeh(net.links[l]) == Offers(net.links[l].s)
  {
  }

  /** The step of a link, by the kind of the link. */
  lemma {:induction false} StepIs(x: Context, p: real, net: NetState, l: LinkId, now: Tick)
    requires NetInvariant.Inv(x, p, net) && l in net.links
    ensures Enabled(x, net, StepLink(l, now)) && l in x.g.links
    ensures var sl, a := net.links[l], StepLink(l, now);
            var r := Apply(x, net, a);
            && (sl.Out? ==>
                  && r == Put(net, l, sl.(o := sl.o.(q := []))).(activeLinks := net.activeLinks - {l}, vehCounter := net.vehCounter - |sl.o.q|)
                  && Exits(x, net, a) == sl.o.q && Ends(x, net, a) == [] && Releases(x, net, a) == [])
            && (!sl.Out? ==>
                  && sl.s.attr.tps > 0
                  && var f := SimStep(sl.s, now);
                  var diff := sl.s.storage.used - f.s.storage.used;
                  && r == Put(net, l, sl.(s := Offer(f.s, Next(now)))).(
                       activeLinks := if Active(f.s) then net.activeLinks else net.activeLinks - {l},
                       activeNodes := if Offers(f.s) then net.activeNodes + {x.g.links[l].to} else net.activeNodes,
                       vehCounter := net.vehCounter - |f.ended|)
                  && Exits(x, net, a) == [] && Ends(x, net, a) == f.ended
                  && Offer(f.s, Next(now)).storage == f.s.storage && diff >= 0.0
                  && Releases(x, net, a) == if sl.In? && diff > 0.0 then [StorageUpdate(l, sl.fromPart, diff)] else [])
  {
    hide NetInvariant.OnNet, NetInvariant.ActiveOk, NetInvariant.NodesOk, NetInvariant.Placed, FreshLink, StorageMax, SimStep;
    assert NetInvariant.LinkOk(x, p, l, net.links[l]);
    if !net.links[l].Out? {
      Ledger.ReleaseNotNegative(net.links[l].s, now, p);
      assert net.links[l].s.attr.tps > 0;
    }
    hide NetInvariant.LinkOk;
  }

  /** From a to b exactly the links done have made their step, and each one once. */
  ghost predicate SteppedExactly(a: NetState, b: NetState, done: set<LinkId>, now: Tick)
  {
    && a.links.Keys == b.links.Keys
    && forall l :: l in a.links ==>
         if l in done then
           (a.links[l].Out? || a.links[l].s.attr.tps > 0) && b.links[l] == NetInvariant.Stepped(a.links[l], now)
         else b.links[l] == a.links[l]
  }

  lemma {:induction false} NothingStepped(net: NetState, now: Tick)
    ensures SteppedExactly(net, net, {}, now)
  {
  }

  /** One more link has made its step. */
  lemma {:induction false} LinkStepped(x: Context, p: real, start: NetState, net: NetState, acts: seq<NetAction>, l: LinkId, now: Tick, done: set<LinkId>)
    requires NetInvariant.Inv(x, p, net) && TimersUpTo(net, Next(now)) && SteppedExactly(start, net, done, now)
    requires l in net.links && l !in done && Enabled(x, net, StepLink(l, now))
    ensures var r := Apply(x, net, StepLink(l, now));
            NetInvariant.Inv(x, p, r) && TimersUpTo(r, Next(now)) && SteppedExactly(start, r, done + {l}, now)
  {
    hide NetInvariant.Inv, Apply, Enabled, NetInvariant.Stepped;
    NetInvariant.ApplyKeepsInv(x, p, net, StepLink(l, now));
    StepLinkIs(x, net, l, now);
    StepKeepsTimers(net, l, now);
    SteppedMore(start, net, Apply(x, net, StepLink(l, now)), l, now, done);
    hide SteppedExactly;
  }

  lemma {:induction false} SteppedMore(start: NetState, a: NetState, b: NetState, l: LinkId, now: Tick, done: set<LinkId>)
    requires SteppedExactly(start, a, done, now) && l in a.links && l !in done
    requires (!a.links[l].Out? ==> a.links[l].s.attr.tps > 0) && b.links == a.links[l := NetInvariant.Stepped(a.links[l], now)]
    ensures SteppedExactly(start, b, done + {l}, now)
  {
    hide NetInvariant.Stepped;
  }

  lemma {:induction false} StepLinkIs(x: Context, net: NetState, l: LinkId, now: Tick)
    requires Enabled(x, net, StepLink(l, now))
    ensures l in net.links && (!net.links[l].Out? ==> net.links[l].s.attr.tps > 0)
    ensures Apply(x, net, StepLink(l, now)).links == net.links[l := NetInvariant.Stepped(net.links[l], now)]
  {
    hide SimStep, Offers, Active, Offer;
  }

  lemma {:induction false} StepKeepsTimers(net: NetState, l: LinkId, now: Tick)
    requires TimersUpTo(net, Next(now)) && l in net.links && (!net.links[l].Out? ==> net.links[l].s.attr.tps > 0)
    ensures var sl := NetInvariant.Stepped(net.links[l], now);
            !sl.Out? && sl.s.timer.Some? ==> sl.s.timer.value <= Next(now)
  {
    if !net.links[l].Out? {
      SimStepShape(net.links[l].s, now);
    }
  }

  lemma {:induction false} CounterNotNegative(x: Context, p: real, net: NetState)
    requires NetInvariant.Inv(x, p, net)
    ensures net.vehCounter >= 0
  {
  }

  ghost function Sends(vs: seq<Vehicle>, routeBegin: bool, now: Tick): (r: seq<NetAction>)
    ensures |r| == |vs| && forall i :: 0 <= i < |vs| ==> r[i] == if routeBegin then Begin(vs[i]) else Receive(vs[i], now)
  {
    seq(|vs|, i requires 0 <= i < |vs| => if routeBegin then Begin(vs[i]) else Receive(vs[i], now))
  }

  ghost function IdsLeft(links: map<LinkId, SimLinkState>, todo: set<LinkId>): (r: map<nat, multiset<nat>>)
    ensures forall l :: l in r <==> l in links && l in todo
  {
    map l | l in links && l in todo :: Ids(Contents(links[l]))
  }

  /** The ids of the vehicles on the links that are still to be drained. */
  ghost function Remaining(links: map<LinkId, SimLinkState>, todo: set<LinkId>): (r: multiset<nat>)
  {
    Total(IdsLeft(links, todo))
  }

  lemma {:induction false} NothingDrained(net: NetState)
    ensures Ids([]) + Remaining(net.links, net.links.Keys) == NetInvariant.OnNet(net)
  {
    hide Total;
    assert IdsLeft(net.links, net.links.Keys) == NetInvariant.IdMap(net.links);
  }

  lemma {:induction false} DrainedMore(links: map<LinkId, SimLinkState>, todo: set<LinkId>, l: LinkId, was: seq<Vehicle>, more: seq<Vehicle>, all: multiset<nat>)
    requires l in todo && todo <= links.Keys && more == Contents(links[l])
    requires Ids(was) + Remaining(links, todo) == all
    ensures Ids(was + more) + Remaining(links, todo - {l}) == all
  {
    hide Ids, Contents, Total;
    TotalRemove(IdsLeft(links, todo), l);
    assert IdsLeft(links, todo) - {l} == IdsLeft(links, todo - {l});
    IdsConcat(was, more);
  }

  lemma {:induction false} AllDrained(links: map<LinkId, SimLinkState>)
    ensures Remaining(links, {}) == multiset{}
  {
    assert IdsLeft(links, {}) == map[];
  }

  /** What happens at node n changes nothing about what is offered to other nodes. */
  lemma {:induction false} OthersKeepOffers(x: Context, p: real, n: NodeId, now: Tick, a: NetState, b: NetState, acts: seq<NetAction>, done: set<NodeId>)
    requires NodeRun(x, p, n, now, a, b, acts) && n !in done
    ensures forall m :: m in done ==> (NothingOffered(x, a, m) <==> NothingOffered(x, b, m))
    ensures NetInvariant.Inv(x, p, b)
  {
    hide NetInvariant.Inv, Run, Legal;
    forall m | m in done
      ensures NothingOffered(x, a, m) <==> NothingOffered(x, b, m)
    {
      SameOffersAt(x, n, a, b, m);
    }
  }

  lemma {:induction false} SameLinksOffer(x: Context, a: NetState, b: NetState)
    requires a.links == b.links
    ensures forall n :: NothingOffered(x, a, n) <==> NothingOffered(x, b, n)
  {
  }

  lemma {:induction false} RestedIs(x: Context, a: NetState, b: NetState, deactivate: set<NodeId>)
    requires b == a.(activeNodes := a.activeNodes - deactivate)
    requires forall n :: n in a.activeNodes ==> (n in deactivate <==> NothingOffered(x, a, n))
    ensures b == Rested(x, a)
  {
    hide NothingOffered;
    assert a.activeNodes - deactivate == (set n | n in a.activeNodes && !NothingOffered(x, a, n));
  }
}
