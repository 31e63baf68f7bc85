/**
 * All partitions together. Vehicles and storage updates travel between them as packets that are
 * each delivered exactly once, at any later time and in any order.
 */
module System {
  import opened Basics
  import opened Storage
  import opened LinkSpec
  import opened RoadNetwork
  import opened Links
  import opened Totals
  import opened NetSpec
  import NetInvariant

  /** A vehicle on a teleported leg: the last link of its route and the link its leg ends on. */
  datatype Teleporter = Teleporter(id: nat, last: LinkId, end: LinkId)

  datatype Packet = Veh(v: Vehicle) | Update(u: StorageUpdate) | Tele(t: Teleporter)

  /** One process: its network, the agents at activities, and the vehicles being teleported. */
  datatype PartState = PartState(net: NetState, idle: multiset<nat>, tele: seq<Teleporter>)

  datatype Sys = Sys(parts: map<Part, PartState>, flight: seq<Packet>)

  datatype World = World(g: RoadNet, c: Config)

  ghost function Ctx(w: World, q: Part): (x: Context)
  {
    Context(w.g, w.c, q)
  }

  predicate Split(g: RoadNet, l: LinkId)
  {
    EndsKnown(g, l) && FromPart(g, l) != ToPart(g, l)
  }

  datatype SysAction =
    | Depart(q: Part, v: Vehicle)            // an agent starts a leg on the network
    | DepartTele(q: Part, t: Teleporter)     // an agent starts a teleported leg
    | TeleArrive(q: Part, i: nat)            // a teleported vehicle reaches its end link
    | Act(q: Part, a: NetAction)             // the partition's own work on its network
    | Deliver(i: nat, now: Tick)             // a packet reaches its destination

  // ------------------------------------------------------------------ what an action does

  function AsPackets(vs: seq<Vehicle>): (r: seq<Packet>)
    ensures |r| == |vs| && forall i :: 0 <= i < |vs| ==> r[i] == Veh(vs[i])
  {
    seq(|vs|, i requires 0 <= i < |vs| => Veh(vs[i]))
  }

  function AsUpdates(us: seq<StorageUpdate>): (r: seq<Packet>)
    ensures |r| == |us| && forall i :: 0 <= i < |us| ==> r[i] == Update(us[i])
  {
    seq(|us|, i requires 0 <= i < |us| => Update(us[i]))
  }

  ghost function Packets(x: Context, net: NetState, a: NetAction): (r: seq<Packet>)
  {
    AsPackets(Exits(x, net, a)) + AsUpdates(Releases(x, net, a))
  }

  /**
   * A teleported vehicle is queued where its leg ends and sent on otherwise. The partition of
   * the last route link decides where it is sent, the partition of the end link where it is queued.
   */
  function TeleReceive(g: RoadNet, q: Part, ps: PartState, t: Teleporter): (r: (PartState, seq<Packet>))
    requires t.end in g.links
  {
    if g.links[t.end].part == q then (ps.(tele := ps.tele + [t]), []) else (ps, [Tele(t)])
  }

  function Destination(g: RoadNet, k: Packet): (q: Option<Part>)
  {
    match k
    case Veh(v) => if v.Curr().Some? && v.Curr().value in g.links then Some(g.links[v.Curr().value].part) else None
    case Update(u) => Some(u.fromPart)
    case Tele(t) => if t.last in g.links then Some(g.links[t.last].part) else None
  }

  ghost predicate Works(a: NetAction)
  {
    a.Look? || a.Move? || a.Rest? || a.StepLink?
  }

  ghost predicate CanAct(w: World, p: real, s: Sys, act: SysAction)
  {
    match act
    case Depart(q, v) =>
      && q in s.parts && v.id in s.parts[q].idle
      && v.pos < |v.route| && NetInvariant.Placed(w.g, v.route[v.pos], v) && 0.0 < v.pce <= p
      && w.g.links[v.route[v.pos]].part == q
    case DepartTele(q, t) =>
      && q in s.parts && t.id in s.parts[q].idle
      && t.last in w.g.links && t.end in w.g.links && w.g.links[t.last].part == w.g.links[t.end].part
    case TeleArrive(q, i) => q in s.parts && i < |s.parts[q].tele|
    case Act(q, a) => q in s.parts && Works(a) && Enabled(Ctx(w, q), s.parts[q].net, a)
    case Deliver(i, _) => i < |s.flight|
  }

  ghost function DeliverTo(w: World, s: Sys, q: Part, k: Packet, now: Tick): (r: (PartState, seq<Packet>))
    requires q in s.parts
  {
    var ps := s.parts[q];
    match k
    case Veh(v) => (ps.(net := Apply(Ctx(w, q), ps.net, Receive(v, now))), [])
    case Update(u) => (ps.(net := Apply(Ctx(w, q), ps.net, Credit(u.link, u.released))), [])
    case Tele(t) => if t.end in w.g.links then TeleReceive(w.g, q, ps, t) else (ps, [])
  }

  ghost function Step(w: World, p: real, s: Sys, act: SysAction): (r: Sys)
  {
    if !CanAct(w, p, s, act) then s else
    match act
    case Depart(q, v) =>
      var ps := s.parts[q];
      s.(parts := s.parts[q := PartState(Apply(Ctx(w, q), ps.net, Begin(v)), ps.idle - multiset{v.id}, ps.tele)])
    case DepartTele(q, t) =>
      var ps := s.parts[q];
      var r := TeleReceive(w.g, q, ps.(idle := ps.idle - multiset{t.id}), t);
      Sys(s.parts[q := r.0], s.flight + r.1)
    case TeleArrive(q, i) =>
      var ps := s.parts[q];
      s.(parts := s.parts[q := ps.(tele := ps.tele[..i] + ps.tele[i + 1..],
                                   idle := ps.idle + multiset{ps.tele[i].id})])
    case Act(q, a) =>
      var ps := s.parts[q];
      var x := Ctx(w, q);
      Sys(s.parts[q := PartState(Apply(x, ps.net, a), ps.idle + Ids(Ends(x, ps.net, a)), ps.tele)],
          s.flight + Packets(x, ps.net, a))
    case Deliver(i, now) =>
      var k := s.flight[i];
      var rest := s.flight[..i] + s.flight[i + 1..];
      var d := Destination(w.g, k);
      if d.Some? && d.value in s.parts then
        var r := DeliverTo(w, s, d.value, k, now);
        Sys(s.parts[d.value := r.0], rest + r.1)
      else s.(flight := rest)
  }

  ghost function RunAll(w: World, p: real, s: Sys, acts: seq<SysAction>): (r: Sys)
  {
    if acts == [] then s else Step(w, p, RunAll(w, p, s, acts[..|acts| - 1]), acts[|acts| - 1])
  }

  lemma {:induction false} RunAllConcat(w: World, p: real, s: Sys, a: seq<SysAction>, b: seq<SysAction>)
    ensures RunAll(w, p, s, a + b) == RunAll(w, p, RunAll(w, p, s, a), b)
  {
    hide Step;
    if b == [] {
      assert a + b == a;
    } else {
      assert (a + b)[..|a + b| - 1] == a + b[..|b| - 1];
      RunAllConcat(w, p, s, a, b[..|b| - 1]);
    }
  }

  lemma {:induction false} RunAllSnoc(w: World, p: real, s: Sys, run: seq<SysAction>, act: SysAction)
    ensures RunAll(w, p, s, run + [act]) == Step(w, p, RunAll(w, p, s, run), act)
  {
    assert (run + [act])[..|run|] == run;
  }

  // ------------------------------------------------------------------ the invariant of the whole

  ghost predicate ValidWorld(w: World)
  {
    && Closed(w.g) && ValidConfig(w.c) && OwnedByToNode(w.g)
    && forall l :: l in w.g.links ==> w.g.links[l].capacity >= 0.0
  }

  /** A packet in flight: what it says is true of the network, and it crosses a border. */
  ghost predicate PacketOk(w: World, p: real, k: Packet)
  {
    match k
    case Veh(v) =>
      && v.pos < |v.route| && NetInvariant.Placed(w.g, v.route[v.pos], v) && 0.0 < v.pce <= p
      && Split(w.g, v.route[v.pos])
    case Update(u) => Split(w.g, u.link) && u.fromPart == FromPart(w.g, u.link) && u.released > 0.0
    case Tele(t) => t.last in w.g.links && t.end in w.g.links && w.g.links[t.last].part == w.g.links[t.end].part
  }

  ghost predicate FlightOk(w: World, p: real, flight: seq<Packet>)
  {
    forall k :: k in flight ==> PacketOk(w, p, k)
  }

  ghost predicate PartsOk(w: World, p: real, s: Sys)
  {
    && (forall n :: n in w.g.nodes ==> w.g.nodes[n].part in s.parts)
    && (forall q :: q in s.parts ==> NetInvariant.Inv(Ctx(w, q), p, s.parts[q].net))
  }

  ghost predicate Ok(w: World, p: real, s: Sys)
  {
    ValidWorld(w) && PartsOk(w, p, s) && FlightOk(w, p, s.flight)
  }

  /** The split link l as its two partitions see it. */
  ghost predicate Both(w: World, s: Sys, l: LinkId)
  {
    && Split(w.g, l)
    && var a, b := FromPart(w.g, l), ToPart(w.g, l);
       && a in s.parts && l in s.parts[a].net.links && s.parts[a].net.links[l].Out?
       && b in s.parts && l in s.parts[b].net.links && s.parts[b].net.links[l].In?
  }

  lemma {:induction false} BothSides(w: World, p: real, s: Sys, l: LinkId)
    requires Ok(w, p, s) && Split(w.g, l)
    ensures Both(w, s, l)
  {
    var a, b := FromPart(w.g, l), ToPart(w.g, l);
    NetOf(w, p, s, a);
    NetOf(w, p, s, b);
    NetHasLink(Ctx(w, a), p, s.parts[a].net, l);
    NetHasLink(Ctx(w, b), p, s.parts[b].net, l);
  }

  lemma {:induction false} NetOf(w: World, p: real, s: Sys, q: Part)
    requires Ok(w, p, s) && q in s.parts
    ensures NetInvariant.Inv(Ctx(w, q), p, s.parts[q].net)
  {
  }

  lemma {:induction false} NetHasLink(x: Context, p: real, net: NetState, l: LinkId)
    requires NetInvariant.Inv(x, p, net) && Split(x.g, l) && InPartition(x, l)
    ensures l in net.links
    ensures x.part == FromPart(x.g, l) ==> net.links[l].Out?
    ensures x.part == ToPart(x.g, l) ==> net.links[l].In? && net.links[l].fromPart == FromPart(x.g, l)
    ensures NetInvariant.LinkOk(x, p, l, net.links[l])
  {
    assert l in net.links;
    assert NetInvariant.LinkOk(x, p, l, net.links[l]);
  }

  // ------------------------------------------------------------------ no run panics

  /** Whatever partition a packet is bound for exists and can take it. */
  lemma {:induction false} PacketDeliverable(w: World, p: real, s: Sys, k: Packet, now: Tick)
    requires Ok(w, p, s) && PacketOk(w, p, k)
    ensures Destination(w.g, k).Some? && Destination(w.g, k).value in s.parts
    ensures var q := Destination(w.g, k).value;
            var net := s.parts[q].net;
            && (k.Veh? ==> q == ToPart(w.g, k.v.route[k.v.pos]) && net.links[k.v.route[k.v.pos]].In?
                           && Enabled(Ctx(w, q), net, Receive(k.v, now))
                           && NetInvariant.Sound(Ctx(w, q), p, Receive(k.v, now)))
            && (k.Update? ==> Enabled(Ctx(w, q), net, Credit(k.u.link, k.u.released)))
            && (k.Tele? ==> TeleReceive(w.g, q, s.parts[q], k.t).1 == [])
  {
    hide NetInvariant.Inv, FlightOk, NetInvariant.Connected;
    match k
    case Veh(v) => BothSides(w, p, s, v.route[v.pos]);
    case Update(u) => BothSides(w, p, s, u.link);
    case Tele(t) => assert EndsKnown(w.g, t.last);
  }

  /** The packet's destination exists and takes it: a link's queue, a storage account, or the queue of teleported vehicles. */
  ghost predicate Accepted(w: World, s: Sys, k: Packet, now: Tick)
  {
    var d := Destination(w.g, k);
    && d.Some? && d.value in s.parts
    && var x, ps := Ctx(w, d.value), s.parts[d.value];
       match k
       case Veh(v) => Enabled(x, ps.net, Receive(v, now))
       case Update(u) => Enabled(x, ps.net, Credit(u.link, u.released))
       case Tele(t) => t.end in w.g.links && TeleReceive(w.g, d.value, ps, t) == (ps.(tele := ps.tele + [t]), [])
  }

  lemma {:induction false} PacketAccepted(w: World, p: real, s: Sys, k: Packet, now: Tick)
    requires Ok(w, p, s) && PacketOk(w, p, k)
    ensures Accepted(w, s, k, now)
  {
    hide Ok, Enabled, NetInvariant.Placed, Split;
    PacketDeliverable(w, p, s, k, now);
  }

  /**
   * Route safety of the whole: in a state that satisfies the invariant, a departing vehicle finds
   * its link, every node finds only local and downstream links behind it, every offered vehicle
   * has a next link that can be asked for space, and every packet can be delivered.
   */
  lemma {:induction false} NothingPanics(w: World, p: real, s: Sys)
    requires Ok(w, p, s)
    ensures forall q, v :: CanAct(w, p, s, Depart(q, v)) ==> Enabled(Ctx(w, q), s.parts[q].net, Begin(v))
    ensures forall q, l :: q in s.parts && EndsKnown(w.g, l) && ToPart(w.g, l) == q ==>
              l in s.parts[q].net.links && !s.parts[q].net.links[l].Out?
    ensures forall q, l :: q in s.parts && l in s.parts[q].net.links && OffersVeh(s.parts[q].net.links[l]) ==>
              MoveIsDefined(s.parts[q].net, l)
    ensures forall k, now: Tick :: k in s.flight ==> Accepted(w, s, k, now)
  {
    hide Accepted, MoveIsDefined, OffersVeh, PacketOk, NetInvariant.LinkOk, NetInvariant.ActiveOk, NetInvariant.NodesOk, NetInvariant.OnNet;
    forall q, l | q in s.parts && EndsKnown(w.g, l) && ToPart(w.g, l) == q
      ensures l in s.parts[q].net.links && !s.parts[q].net.links[l].Out?
    {
      OwnLinkIsHere(w, p, s, q, l);
    }
    forall q, v | CanAct(w, p, s, Depart(q, v))
      ensures Enabled(Ctx(w, q), s.parts[q].net, Begin(v))
    {
      OwnLinkIsHere(w, p, s, q, v.route[v.pos]);
    }
    forall q, l | q in s.parts && l in s.parts[q].net.links && OffersVeh(s.parts[q].net.links[l])
      ensures MoveIsDefined(s.parts[q].net, l)
    {
      NetOf(w, p, s, q);
      NetInvariant.OfferIsMovable(Ctx(w, q), p, s.parts[q].net, l);
    }
    forall k, now: Tick | k in s.flight
      ensures Accepted(w, s, k, now)
    {
      PacketAccepted(w, p, s, k, now);
    }
  }

  lemma {:induction false} OwnLinkIsHere(w: World, p: real, s: Sys, q: Part, l: LinkId)
    requires Ok(w, p, s) && q in s.parts && EndsKnown(w.g, l) && ToPart(w.g, l) == q
    ensures l in s.parts[q].net.links && !s.parts[q].net.links[l].Out?
  {
    NetOf(w, p, s, q);
    var x, net := Ctx(w, q), s.parts[q].net;
    assert InPartition(x, l) && l in net.links;
    assert NetInvariant.LinkOk(x, p, l, net.links[l]);
  }

  // ------------------------------------------------------------------ every action keeps it

  lemma {:induction false} UpdatePart(w: World, p: real, s: Sys, q: Part, ps: PartState, flight: seq<Packet>)
    requires Ok(w, p, s) && q in s.parts && NetInvariant.Inv(Ctx(w, q), p, ps.net)
    requires FlightOk(w, p, flight)
    ensures Ok(w, p, Sys(s.parts[q := ps], flight))
  {
    hide NetInvariant.Inv, PacketOk, ValidWorld;
  }

  lemma {:induction false} StepKeepsOk(w: World, p: real, s: Sys, act: SysAction)
    requires Ok(w, p, s)
    ensures Ok(w, p, Step(w, p, s, act))
  {
    if CanAct(w, p, s, act) {
      match act
      case Depart(q, v) => DepartKeepsOk(w, p, s, q, v);
      case DepartTele(q, t) => DepartTeleKeepsOk(w, p, s, q, t);
      case TeleArrive(q, i) =>
        UpdatePart(w, p, s, q, Step(w, p, s, act).parts[q], s.flight);
      case Act(q, a) => ActKeepsOk(w, p, s, q, a);
      case Deliver(i, now) => DeliverKeepsOk(w, p, s, i, now);
    }
  }

  lemma {:induction false} DepartKeepsOk(w: World, p: real, s: Sys, q: Part, v: Vehicle)
    requires Ok(w, p, s) && CanAct(w, p, s, Depart(q, v))
    ensures Ok(w, p, Step(w, p, s, Depart(q, v)))
    ensures Enabled(Ctx(w, q), s.parts[q].net, Begin(v)) && NetInvariant.Sound(Ctx(w, q), p, Begin(v))
  {
    hide NetInvariant.Inv, FlightOk, PartsOk;
    assert v.route[v.pos] in w.g.links;
    assert EndsKnown(w.g, v.route[v.pos]) && ToPart(w.g, v.route[v.pos]) == q;
    hide NetInvariant.Connected;
    NetOf(w, p, s, q);
    OwnLinkIsHere(w, p, s, q, v.route[v.pos]);
    hide Ok;
    NetInvariant.ApplyKeepsInv(Ctx(w, q), p, s.parts[q].net, Begin(v));
    hide Apply;
    UpdatePart(w, p, s, q, Step(w, p, s, Depart(q, v)).parts[q], s.flight);
  }

  lemma {:induction false} DepartTeleKeepsOk(w: World, p: real, s: Sys, q: Part, t: Teleporter)
    requires Ok(w, p, s) && CanAct(w, p, s, DepartTele(q, t))
    ensures Ok(w, p, Step(w, p, s, DepartTele(q, t)))
  {
    hide NetInvariant.Inv, NetInvariant.Placed, PartsOk, ValidWorld;
    NetOf(w, p, s, q);
    var ps := s.parts[q];
    var r := TeleReceive(w.g, q, ps.(idle := ps.idle - multiset{t.id}), t);
    assert FlightOk(w, p, s.flight + r.1);
    UpdatePart(w, p, s, q, r.0, s.flight + r.1);
  }

  lemma {:induction false} ActKeepsOk(w: World, p: real, s: Sys, q: Part, a: NetAction)
    requires Ok(w, p, s) && CanAct(w, p, s, Act(q, a))
    ensures Ok(w, p, Step(w, p, s, Act(q, a)))
  {
    hide NetInvariant.Inv, PacketOk, Packets, Apply, Enabled, Ends;
    var x, net := Ctx(w, q), s.parts[q].net;
    NetOf(w, p, s, q);
    assert NetInvariant.Sound(x, p, a);
    NetInvariant.ApplyKeepsInv(x, p, net, a);
    PacketsOk(w, p, s, q, a);
    assert FlightOk(w, p, s.flight + Packets(x, net, a));
    UpdatePart(w, p, s, q, Step(w, p, s, Act(q, a)).parts[q], s.flight + Packets(x, net, a));
  }

  lemma {:induction false} PacketsOk(w: World, p: real, s: Sys, q: Part, a: NetAction)
    requires Ok(w, p, s) && CanAct(w, p, s, Act(q, a))
    ensures FlightOk(w, p, Packets(Ctx(w, q), s.parts[q].net, a))
  {
    var x, net := Ctx(w, q), s.parts[q].net;
    NetOf(w, p, s, q);
    if a.StepLink? {
      LinkPacketsOk(w, p, q, net, a);
    }
  }

  lemma {:induction false} LinkPacketsOk(w: World, p: real, q: Part, net: NetState, a: NetAction)
    requires NetInvariant.Inv(Ctx(w, q), p, net) && a.StepLink? && Enabled(Ctx(w, q), net, a)
    ensures FlightOk(w, p, Packets(Ctx(w, q), net, a))
  {
    hide NetInvariant.Connected, SimStep, StorageMax, FreshLink, NetInvariant.OnNet, NetInvariant.ActiveOk, NetInvariant.NodesOk;
    var x := Ctx(w, q);
    assert NetInvariant.LinkOk(x, p, a.l, net.links[a.l]);
    hide NetInvariant.Inv, NetInvariant.LinksOk;
    forall k | k in Packets(x, net, a)
      ensures PacketOk(w, p, k)
    {
      if k.Veh? {
        assert k.v in Exits(x, net, a);
        assert k.v in Contents(net.links[a.l]);
      } else {
        assert k.u in Releases(x, net, a);
      }
    }
  }

  lemma {:induction false} DeliveredOk(w: World, p: real, s: Sys, k: Packet, now: Tick)
    requires Ok(w, p, s) && PacketOk(w, p, k)
    ensures Destination(w.g, k).Some? && Destination(w.g, k).value in s.parts
    ensures var q := Destination(w.g, k).value;
            var r := DeliverTo(w, s, q, k, now);
            NetInvariant.Inv(Ctx(w, q), p, r.0.net) && r.1 == []
  {
    hide NetInvariant.Inv, Enabled, Apply, NetInvariant.Placed, PartsOk, ValidWorld, FlightOk;
    PacketDeliverable(w, p, s, k, now);
    var q := Destination(w.g, k).value;
    NetOf(w, p, s, q);
    match k {
      case Veh(v) => NetInvariant.ApplyKeepsInv(Ctx(w, q), p, s.parts[q].net, Receive(v, now));
      case Update(u) => NetInvariant.ApplyKeepsInv(Ctx(w, q), p, s.parts[q].net, Credit(u.link, u.released));
      case Tele(t) =>
    }
  }

  function Removed(flight: seq<Packet>, i: nat): (r: seq<Packet>)
    requires i < |flight|
    ensures forall k :: k in r ==> k in flight
  {
    flight[..i] + flight[i + 1..]
  }

  /** What a delivery does: the packet is gone from the flight and its destination has it. */
  lemma {:induction false} DeliverStep(w: World, p: real, s: Sys, i: nat, now: Tick)
    requires Ok(w, p, s) && i < |s.flight|
    ensures var k := s.flight[i];
            && PacketOk(w, p, k) && Destination(w.g, k).Some? && Destination(w.g, k).value in s.parts
            && var q := Destination(w.g, k).value;
               Step(w, p, s, Deliver(i, now)) ==
               Sys(s.parts[q := DeliverTo(w, s, q, k, now).0], Removed(s.flight, i))
  {
    hide NetInvariant.Inv, PacketOk, DeliverTo, PartsOk, ValidWorld, Destination, NetInvariant.Placed, Enabled;
    var k := s.flight[i];
    assert k in s.flight;
    DeliveredOk(w, p, s, k, now);
    var rest := s.flight[..i] + s.flight[i + 1..];
    assert rest + [] == rest;
  }

  lemma {:induction false} DeliverKeepsOk(w: World, p: real, s: Sys, i: nat, now: Tick)
    requires Ok(w, p, s) && i < |s.flight|
    ensures Ok(w, p, Step(w, p, s, Deliver(i, now)))
  {
    DeliverStep(w, p, s, i, now);
    var k := s.flight[i];
    DeliveredOk(w, p, s, k, now);
    hide NetInvariant.Inv, PacketOk, DeliverTo, Step, PartsOk, ValidWorld, Destination;
    var q := Destination(w.g, k).value;
    UpdatePart(w, p, s, q, DeliverTo(w, s, q, k, now).0, Removed(s.flight, i));
  }

  /** No action of any run panics: every state of every run satisfies the invariant. */
  lemma {:induction false} RunKeepsOk(w: World, p: real, s: Sys, acts: seq<SysAction>)
    requires Ok(w, p, s)
    ensures Ok(w, p, RunAll(w, p, s, acts))
  {
    if acts != [] {
      RunKeepsOk(w, p, s, acts[..|acts| - 1]);
      StepKeepsOk(w, p, RunAll(w, p, s, acts[..|acts| - 1]), acts[|acts| - 1]);
    }
  }

  /** The processes before the first tick: every network is empty and nothing is in flight. */
  ghost predicate Initial(w: World, s: Sys)
    requires Closed(w.g) && ValidConfig(w.c)
  {
    && s.flight == []
    && (forall n :: n in w.g.nodes ==> w.g.nodes[n].part in s.parts)
    && (forall q :: q in s.parts ==> s.parts[q].net == FromNetwork(Ctx(w, q)) && s.parts[q].tele == [])
  }

  lemma {:induction false} InitialOk(w: World, p: real, s: Sys)
    requires ValidWorld(w) && p > 0.0 && Initial(w, s)
    ensures Ok(w, p, s)
  {
    forall q | q in s.parts
      ensures NetInvariant.Inv(Ctx(w, q), p, s.parts[q].net)
    {
      NetInvariant.InitialInv(Ctx(w, q), p);
    }
  }

  /** Two partitions are neighbours of each other or not at all: each has a half of a split link. */
  ghost predicate Neighbour(g: RoadNet, a: Part, b: Part)
  {
    exists l :: Split(g, l) && ((FromPart(g, l) == a && ToPart(g, l) == b) || (FromPart(g, l) == b && ToPart(g, l) == a))
  }

  predicate Names(sl: SimLinkState, q: Part)
  {
    (sl.In? && sl.fromPart == q) || (sl.Out? && sl.toPart == q)
  }

  /**
   * No run panics: from the initial state, whatever happens and in whatever order, vehicles that
   * depart find their link, nodes find only links with a queue behind them, every vehicle offered
   * has a next link that can be asked for space, and every packet reaches a partition that takes it.
   */
  lemma {:induction false} NoRunPanics(w: World, p: real, s: Sys, acts: seq<SysAction>)
    requires ValidWorld(w) && p > 0.0 && Initial(w, s)
    ensures var r := RunAll(w, p, s, acts);
            && (forall q, v :: CanAct(w, p, r, Depart(q, v)) ==> Enabled(Ctx(w, q), r.parts[q].net, Begin(v)))
            && (forall q, l :: q in r.parts && EndsKnown(w.g, l) && ToPart(w.g, l) == q ==>
                  l in r.parts[q].net.links && !r.parts[q].net.links[l].Out?)
            && (forall q, l :: q in r.parts && l in r.parts[q].net.links && OffersVeh(r.parts[q].net.links[l]) ==>
                  MoveIsDefined(r.parts[q].net, l))
            && (forall k, now: Tick :: k in r.flight ==> Accepted(w, r, k, now))
  {
    hide Accepted, Ok, Initial, RunAll, CanAct, Enabled, MoveIsDefined, OffersVeh, Destination, ValidWorld;
    InitialOk(w, p, s);
    RunKeepsOk(w, p, s, acts);
    NothingPanics(w, p, RunAll(w, p, s, acts));
  }

  /** Some half of a split link in this partition's network names q: q is waited for. */
  ghost predicate WaitsFor(net: NetState, q: Part)
  {
    exists l :: l in net.links && Names(net.links[l], q)
  }

  lemma {:induction false} NeighboursAreNeighbours(x: Context, p: real, net: NetState, q: Part)
    requires NetInvariant.Inv(x, p, net)
    ensures WaitsFor(net, q) <==> Neighbour(x.g, x.part, q)
  {
    if WaitsFor(net, q) {
      var l :| l in net.links && Names(net.links[l], q);
      assert NetInvariant.LinkOk(x, p, l, net.links[l]);
      assert Split(x.g, l);
    }
    if Neighbour(x.g, x.part, q) {
      var l :| Split(x.g, l) && ((FromPart(x.g, l) == x.part && ToPart(x.g, l) == q) ||
                                 (FromPart(x.g, l) == q && ToPart(x.g, l) == x.part));
      NetHasLink(x, p, net, l);
    }
  }

  /** The neighbour relation that the processes wait by is symmetric. */
  lemma {:induction false} NeighboursSymmetric(w: World, p: real, s: Sys, a: Part, b: Part)
    requires Ok(w, p, s) && a in s.parts && b in s.parts
    ensures WaitsFor(s.parts[b].net, a) <==> WaitsFor(s.parts[a].net, b)
  {
    hide NetInvariant.Inv, FlightOk, ValidWorld, WaitsFor;
    NetOf(w, p, s, a);
    NetOf(w, p, s, b);
    NeighboursAreNeighbours(Ctx(w, a), p, s.parts[a].net, b);
    NeighboursAreNeighbours(Ctx(w, b), p, s.parts[b].net, a);
  }
}
