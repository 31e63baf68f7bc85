/**
 * The storage account of split links. The upstream partition keeps an account of a queue that it
 * cannot see; storage updates are the only thing that ever corrects it.
 */
module Ledger {
  import opened Basics
  import opened Storage
  import opened LinkSpec
  import LinkRuns
  import opened RoadNetwork
  import opened Links
  import opened NetSpec
  import NetInvariant
  import opened System

  /** What a packet in flight stands for on link l. */
  function Weight(k: Packet, l: LinkId): (r: real)
  {
    match k
    case Veh(v) => if v.Curr() == Some(l) then v.pce else 0.0
    case Update(u) => if u.link == l then u.released else 0.0
    case Tele(_) => 0.0
  }

  function Owed(ks: seq<Packet>, l: LinkId): (r: real)
  {
    if ks == [] then 0.0 else Weight(ks[0], l) + Owed(ks[1..], l)
  }

  lemma {:induction false} OwedConcat(a: seq<Packet>, b: seq<Packet>, l: LinkId)
    ensures Owed(a + b, l) == Owed(a, l) + Owed(b, l)
  {
    if a == [] {
      assert a + b == b;
    } else {
      assert (a + b)[1..] == a[1..] + b;
      OwedConcat(a[1..], b, l);
    }
  }

  lemma {:induction false} OwedRemoved(ks: seq<Packet>, i: nat, l: LinkId)
    requires i < |ks|
    ensures Owed(Removed(ks, i), l) == Owed(ks, l) - Weight(ks[i], l)
  {
    assert ks == ks[..i] + ([ks[i]] + ks[i + 1..]);
    OwedConcat(ks[..i], [ks[i]] + ks[i + 1..], l);
    OwedConcat([ks[i]], ks[i + 1..], l);
    OwedConcat(ks[..i], ks[i + 1..], l);
  }

  lemma {:induction false} OwedNothing(ks: seq<Packet>, l: LinkId)
    requires forall k :: k in ks ==> Weight(k, l) == 0.0
    ensures Owed(ks, l) == 0.0
  {
    if ks != [] {
      assert ks[0] in ks && forall k :: k in ks[1..] ==> k in ks;
      OwedNothing(ks[1..], l);
    }
  }

  lemma {:induction false} OwedNonNegative(w: World, p: real, ks: seq<Packet>, l: LinkId)
    requires FlightOk(w, p, ks)
    ensures Owed(ks, l) >= 0.0
  {
    if ks != [] {
      assert ks[0] in ks && PacketOk(w, p, ks[0]);
      assert FlightOk(w, p, ks[1..]) by {
        assert forall k :: k in ks[1..] ==> k in ks;
      }
      OwedNonNegative(w, p, ks[1..], l);
    }
  }

  lemma {:induction false} OwedVehicles(vs: seq<Vehicle>, l: LinkId)
    requires forall v :: v in vs ==> v.Curr() == Some(l)
    ensures Owed(AsPackets(vs), l) == Pce(vs)
  {
    if vs != [] {
      assert vs[0] in vs && forall v :: v in vs[1..] ==> v in vs;
      assert AsPackets(vs)[1..] == AsPackets(vs[1..]);
      OwedVehicles(vs[1..], l);
    }
  }

  // ------------------------------------------------------------------ one partition

  /** On the upstream half: storage accounted for but not queued here. Downstream: storage in use. */
  function Slack(sl: SimLinkState): (r: real)
  {
    if sl.Out? then sl.o.storage.used - Pce(sl.o.q) else sl.s.storage.used
  }

  /** The packets of a partition's step weigh nothing on the links that it does not step. */
  lemma {:induction false} PacketsElsewhere(x: Context, p: real, net: NetState, a: NetAction, l: LinkId)
    requires NetInvariant.Inv(x, p, net) && (a.StepLink? && Enabled(x, net, a) ==> a.l != l)
    ensures Owed(Packets(x, net, a), l) == 0.0
  {
    if a.StepLink? && Enabled(x, net, a) {
      assert NetInvariant.LinkOk(x, p, a.l, net.links[a.l]);
      hide NetInvariant.Inv, NetInvariant.Connected, SimStep, StorageMax, FreshLink, LinkRuns.Inv, Enabled;
      forall k | k in Packets(x, net, a)
        ensures Weight(k, l) == 0.0
      {
        if k.Veh? {
          assert k.v in Exits(x, net, a);
          assert k.v in Contents(net.links[a.l]);
        } else {
          assert k.u in Releases(x, net, a);
        }
      }
      OwedNothing(Packets(x, net, a), l);
    } else {
      assert Packets(x, net, a) == [];
    }
  }

  /** The step of the upstream half hands its queue over; the account does not change. */
  lemma {:induction false} StepOutSlack(x: Context, p: real, net: NetState, l: LinkId, now: Tick)
    requires NetInvariant.Inv(x, p, net) && l in net.links && net.links[l].Out?
    requires Enabled(x, net, StepLink(l, now))
    ensures Slack(Apply(x, net, StepLink(l, now)).links[l]) ==
            Slack(net.links[l]) + Owed(Packets(x, net, StepLink(l, now)), l)
  {
    var q := net.links[l].o.q;
    assert NetInvariant.LinkOk(x, p, l, net.links[l]);
    hide NetInvariant.Inv, NetInvariant.Connected, StorageMax, FreshLink;
    assert forall v :: v in q ==> v.Curr() == Some(l) by {
      assert Contents(net.links[l]) == q;
    }
    OwedVehicles(q, l);
    assert AsPackets(q) + AsUpdates([]) == AsPackets(q);
    assert Packets(x, net, StepLink(l, now)) == AsPackets(q);
  }

  /** The step of the downstream half reports exactly what it releases. */
  lemma {:induction false} StepInSlack(x: Context, p: real, net: NetState, l: LinkId, now: Tick)
    requires NetInvariant.Inv(x, p, net) && l in net.links && net.links[l].In?
    requires Enabled(x, net, StepLink(l, now))
    ensures Slack(Apply(x, net, StepLink(l, now)).links[l]) ==
            Slack(net.links[l]) - Owed(Packets(x, net, StepLink(l, now)), l)
  {
    hide SimStep, NetInvariant.OnNet, NetInvariant.ActiveOk, NetInvariant.NodesOk, NetInvariant.Placed, FreshLink, StorageMax, Pce;
    var sl := net.links[l];
    var t := SimStep(sl.s, now).s;
    assert NetInvariant.LinkOk(x, p, l, sl);
    hide NetInvariant.Inv, NetInvariant.LinksOk, LinkRuns.Inv;
    ReleaseNotNegative(sl.s, now, p);
    hide NetInvariant.LinkOk;
    var us := Releases(x, net, StepLink(l, now));
    assert AsPackets([]) + AsUpdates(us) == AsUpdates(us);
    assert Packets(x, net, StepLink(l, now)) == AsUpdates(us);
    if us != [] {
      assert us == [us[0]] && AsUpdates(us) == [Update(us[0])];
      assert Owed([Update(us[0])], l) == Weight(Update(us[0]), l) + Owed([], l);
    }
  }

  /** The assertion in the source: moving vehicles cannot increase the occupied storage. */
  lemma {:induction false} ReleaseNotNegative(s: LinkState, now: Tick, p: real)
    requires LinkRuns.Inv(s, p)
    ensures SimStep(s, now).s.storage.used <= s.storage.used
  {
    SimStepShape(s, now);
    var vs := Vehs(s.q[..QueueTaken(s, now)]);
    assert PceWithin(vs, p) by {
      forall v | v in vs
        ensures v in OnLink(s)
      {
        assert v in Vehs(s.q);
      }
    }
    PcePositive(vs, p);
  }

  lemma {:induction false} MoveSlack(net: NetState, m: LinkId, now: Tick, l: LinkId)
    requires MoveIsDefined(net, m) && l in net.links
    ensures l in MoveVehicle(net, m, now).links
    ensures Slack(MoveVehicle(net, m, now).links[l]) == Slack(net.links[l]) || net.links[l].Local?
    ensures net.links[l].Out? == MoveVehicle(net, m, now).links[l].Out?
  {
    NetInvariant.MoveInTwo(net, m, now);
    var v, n, net1 := net.links[m].s.buffer[0], NextOf(net, m), NetInvariant.Popped(net, m);
    hide Pce;
    if l == n && net.links[l].Out? {
      PceConcat(net.links[l].o.q, [v.LeftLink()]);
      PceOne(v.LeftLink());
    }
  }

  lemma {:induction false} PceOne(v: Vehicle)
    ensures Pce([v]) == v.pce
  {
    assert Pce([v]) == v.pce + Pce([v][1..]);
  }

  /** What the partition's own work does to one split link. */
  lemma {:induction false} WorkSlack(x: Context, p: real, net: NetState, a: NetAction, l: LinkId)
    requires NetInvariant.Inv(x, p, net) && Works(a) && Enabled(x, net, a)
    requires l in net.links && !net.links[l].Local?
    ensures l in Apply(x, net, a).links
    ensures net.links[l].Out? ==> Slack(Apply(x, net, a).links[l]) == Slack(net.links[l]) + Owed(Packets(x, net, a), l)
    ensures net.links[l].In? ==> Slack(Apply(x, net, a).links[l]) == Slack(net.links[l]) - Owed(Packets(x, net, a), l)
  {
    if a.StepLink? && a.l == l {
      if net.links[l].Out? {
        StepOutSlack(x, p, net, l, a.now);
      } else {
        StepInSlack(x, p, net, l, a.now);
      }
    } else {
      PacketsElsewhere(x, p, net, a, l);
      OtherWorkSlack(x, net, a, l);
    }
  }

  lemma {:induction false} OtherWorkSlack(x: Context, net: NetState, a: NetAction, l: LinkId)
    requires Works(a) && Enabled(x, net, a) && !(a.StepLink? && a.l == l)
    requires l in net.links && !net.links[l].Local?
    ensures l in Apply(x, net, a).links
    ensures Slack(Apply(x, net, a).links[l]) == Slack(net.links[l])
  {
    match a
    case Look(_, _) =>
    case Rest(_) =>
    case StepLink(_, _) =>
    case Move(m, now) =>
      MoveSlack(net, m, now, l);
  }

  // ------------------------------------------------------------------ the ledger

  /**
   * The ledger of split link l: what the upstream account shows as used is the queue still on the
   * upstream side, plus the vehicles in flight to the link, plus the downstream queue, plus the
   * released storage in flight; and the downstream account is exactly its own queue.
   */
  ghost predicate Balanced(w: World, s: Sys, l: LinkId)
  {
    && Both(w, s, l)
    && var up := s.parts[FromPart(w.g, l)].net.links[l].o;
       var down := s.parts[ToPart(w.g, l)].net.links[l].s;
       && up.storage.used == Pce(up.q) + Owed(s.flight, l) + down.storage.used
       && down.storage.used == Pce(Vehs(down.q))
  }

  /** The part of the ledger that has to be carried along. */
  ghost predicate Carried(w: World, s: Sys, l: LinkId)
  {
    && Both(w, s, l)
    && Slack(s.parts[FromPart(w.g, l)].net.links[l]) ==
       Owed(s.flight, l) + Slack(s.parts[ToPart(w.g, l)].net.links[l])
  }

  lemma {:induction false} DownStorage(w: World, p: real, s: Sys, l: LinkId)
    requires Ok(w, p, s) && Split(w.g, l)
    ensures Both(w, s, l)
    ensures var down := s.parts[ToPart(w.g, l)].net.links[l].s; down.storage.used == Pce(Vehs(down.q))
  {
    hide NetInvariant.Inv, PartsOk, FlightOk, ValidWorld;
    BothSides(w, p, s, l);
    var b := ToPart(w.g, l);
    NetOf(w, p, s, b);
    NetHasLink(Ctx(w, b), p, s.parts[b].net, l);
  }

  lemma {:induction false} CarriedIsBalanced(w: World, p: real, s: Sys, l: LinkId)
    requires Ok(w, p, s) && Split(w.g, l)
    ensures Carried(w, s, l) <==> Balanced(w, s, l)
  {
    hide Ok, Owed, Pce, Vehs;
    DownStorage(w, p, s, l);
  }

  /** Only one partition and the flight change. */
  lemma {:induction false} CarriedAfter(w: World, s: Sys, r: Sys, l: LinkId, q: Part, d: real)
    requires Carried(w, s, l) && Both(w, r, l)
    requires q in s.parts && q in r.parts && forall j :: j in s.parts && j != q ==> j in r.parts && r.parts[j] == s.parts[j]
    requires q == FromPart(w.g, l) ==> Slack(r.parts[q].net.links[l]) == Slack(s.parts[q].net.links[l]) + d
    requires q == ToPart(w.g, l) ==> Slack(r.parts[q].net.links[l]) == Slack(s.parts[q].net.links[l]) - d
    requires q != FromPart(w.g, l) && q != ToPart(w.g, l) ==> d == 0.0
    requires Owed(r.flight, l) == Owed(s.flight, l) + d
    ensures Carried(w, r, l)
  {
  }

  lemma {:induction false} ActSlack(w: World, p: real, s: Sys, q: Part, a: NetAction, l: LinkId)
    requires Ok(w, p, s) && CanAct(w, p, s, Act(q, a)) && Both(w, s, l)
    ensures var x, net := Ctx(w, q), s.parts[q].net;
            var d := Owed(Packets(x, net, a), l);
            && (q == FromPart(w.g, l) ==> l in Apply(x, net, a).links && Slack(Apply(x, net, a).links[l]) == Slack(net.links[l]) + d)
            && (q == ToPart(w.g, l) ==> l in Apply(x, net, a).links && Slack(Apply(x, net, a).links[l]) == Slack(net.links[l]) - d)
            && (q != FromPart(w.g, l) && q != ToPart(w.g, l) ==> d == 0.0)
  {
    hide PartsOk, FlightOk, ValidWorld, Enabled, Apply, Packets, Slack, Owed;
    var x, net := Ctx(w, q), s.parts[q].net;
    NetOf(w, p, s, q);
    if q == FromPart(w.g, l) || q == ToPart(w.g, l) {
      hide NetInvariant.Inv;
      WorkSlack(x, p, net, a, l);
    } else {
      NotMine(x, p, net, l);
      NotStepped(x, net, a, l);
      hide NetInvariant.Inv;
      PacketsElsewhere(x, p, net, a, l);
    }
  }

  lemma {:induction false} NotMine(x: Context, p: real, net: NetState, l: LinkId)
    requires NetInvariant.Inv(x, p, net) && EndsKnown(x.g, l) && !InPartition(x, l)
    ensures l !in net.links
  {
  }

  lemma {:induction false} NotStepped(x: Context, net: NetState, a: NetAction, l: LinkId)
    requires l !in net.links
    ensures a.StepLink? && Enabled(x, net, a) ==> a.l != l
  {
  }

  lemma {:induction false} ActCarries(w: World, p: real, s: Sys, q: Part, a: NetAction, l: LinkId)
    requires Ok(w, p, s) && CanAct(w, p, s, Act(q, a)) && Carried(w, s, l)
    ensures Carried(w, Step(w, p, s, Act(q, a)), l)
  {
    hide Ok, Enabled, Apply, Packets, Slack, Works, Owed, NetInvariant.Placed;
    var x, net := Ctx(w, q), s.parts[q].net;
    var r := Step(w, p, s, Act(q, a));
    StepKeepsOk(w, p, s, Act(q, a));
    BothSides(w, p, r, l);
    OwedConcat(s.flight, Packets(x, net, a), l);
    ActSlack(w, p, s, q, a, l);
    assert r.flight == s.flight + Packets(x, net, a);
    assert r.parts[q].net == Apply(x, net, a);
    CarriedAfter(w, s, r, l, q, Owed(Packets(x, net, a), l));
  }

  /** Starting a leg puts the vehicle on the waiting list, which uses no storage. */
  lemma {:induction false} BeginSlack(x: Context, net: NetState, v: Vehicle, l: LinkId)
    requires Enabled(x, net, Begin(v)) && l in net.links
    ensures l in Apply(x, net, Begin(v)).links
    ensures Slack(Apply(x, net, Begin(v)).links[l]) == Slack(net.links[l])
  {
  }

  lemma {:induction false} DepartCarries(w: World, p: real, s: Sys, q: Part, v: Vehicle, l: LinkId)
    requires Ok(w, p, s) && CanAct(w, p, s, Depart(q, v)) && Carried(w, s, l)
    ensures Carried(w, Step(w, p, s, Depart(q, v)), l)
  {
    hide Ok, NetInvariant.Placed, Enabled, Apply, Slack, Owed;
    var r := Step(w, p, s, Depart(q, v));
    DepartKeepsOk(w, p, s, q, v);
    BothSides(w, p, r, l);
    if l in s.parts[q].net.links {
      BeginSlack(Ctx(w, q), s.parts[q].net, v, l);
    }
    CarriedAfter(w, s, r, l, q, 0.0);
  }

  lemma {:induction false} DeliverCarries(w: World, p: real, s: Sys, i: nat, now: Tick, l: LinkId)
    requires Ok(w, p, s) && i < |s.flight| && Carried(w, s, l)
    ensures Carried(w, Step(w, p, s, Deliver(i, now)), l)
  {
    hide Ok, PacketOk, DeliverTo, Step, Slack, Destination, Weight, Owed;
    var r := Step(w, p, s, Deliver(i, now));
    var k := s.flight[i];
    DeliverKeepsOk(w, p, s, i, now);
    DeliverStep(w, p, s, i, now);
    BothSides(w, p, r, l);
    OwedRemoved(s.flight, i, l);
    DeliveredSlack(w, p, s, k, now, l);
    CarriedAfter(w, s, r, l, Destination(w.g, k).value, -Weight(k, l));
  }

  /** What a delivered packet changes on link l, seen from its destination. */
  lemma {:induction false} DeliveredSlack(w: World, p: real, s: Sys, k: Packet, now: Tick, l: LinkId)
    requires Ok(w, p, s) && PacketOk(w, p, k) && Both(w, s, l)
    ensures Destination(w.g, k).Some? && Destination(w.g, k).value in s.parts
    ensures var q := Destination(w.g, k).value;
            var before, after := s.parts[q].net, DeliverTo(w, s, q, k, now).0.net;
            && (q == FromPart(w.g, l) ==> l in after.links && Slack(after.links[l]) == Slack(before.links[l]) - Weight(k, l))
            && (q == ToPart(w.g, l) ==> l in after.links && Slack(after.links[l]) == Slack(before.links[l]) + Weight(k, l))
            && (q != FromPart(w.g, l) && q != ToPart(w.g, l) ==> Weight(k, l) == 0.0)
  {
    hide Ok, Enabled, Apply, NetInvariant.Connected, NetInvariant.Sound;
    PacketDeliverable(w, p, s, k, now);
    var q := Destination(w.g, k).value;
    var net := s.parts[q].net;
    match k
    case Veh(v) =>
      if l in net.links {
        ReceiveSlack(Ctx(w, q), net, v, now, l);
      }
    case Update(u) =>
      if l in net.links {
        CreditSlack(Ctx(w, q), net, u.link, u.released, l);
      }
    case Tele(_) =>
  }

  lemma {:induction false} ReceiveSlack(x: Context, net: NetState, v: Vehicle, now: Tick, l: LinkId)
    requires Enabled(x, net, Receive(v, now)) && l in net.links && net.links[v.Curr().value].In?
    ensures l in Apply(x, net, Receive(v, now)).links
    ensures Slack(Apply(x, net, Receive(v, now)).links[l]) == Slack(net.links[l]) + (if v.Curr() == Some(l) then v.pce else 0.0)
  {
    hide Pce;
  }

  lemma {:induction false} CreditSlack(x: Context, net: NetState, m: LinkId, released: real, l: LinkId)
    requires Enabled(x, net, Credit(m, released)) && l in net.links
    ensures l in Apply(x, net, Credit(m, released)).links
    ensures Slack(Apply(x, net, Credit(m, released)).links[l]) == Slack(net.links[l]) - (if m == l then released else 0.0)
  {
    hide Pce;
  }

  lemma {:induction false} TeleCarries(w: World, p: real, s: Sys, act: SysAction, l: LinkId)
    requires Ok(w, p, s) && CanAct(w, p, s, act) && Carried(w, s, l) && (act.DepartTele? || act.TeleArrive?)
    ensures Carried(w, Step(w, p, s, act), l)
  {
    hide Ok, Owed, Slack, NetInvariant.Placed;
    var r := Step(w, p, s, act);
    StepKeepsOk(w, p, s, act);
    BothSides(w, p, r, l);
    TeleFlight(w, p, s, act, l);
    CarriedAfter(w, s, r, l, act.q, 0.0);
  }

  lemma {:induction false} TeleFlight(w: World, p: real, s: Sys, act: SysAction, l: LinkId)
    requires CanAct(w, p, s, act) && (act.DepartTele? || act.TeleArrive?)
    ensures Owed(Step(w, p, s, act).flight, l) == Owed(s.flight, l)
    ensures Step(w, p, s, act).parts[act.q].net == s.parts[act.q].net
  {
    if act.DepartTele? {
      var ps := s.parts[act.q];
      var k := TeleReceive(w.g, act.q, ps.(idle := ps.idle - multiset{act.t.id}), act.t).1;
      OwedConcat(s.flight, k, l);
      OwedNothing(k, l);
    }
  }

  lemma {:induction false} StepCarries(w: World, p: real, s: Sys, act: SysAction, l: LinkId)
    requires Ok(w, p, s) && Carried(w, s, l)
    ensures Carried(w, Step(w, p, s, act), l)
  {
    if CanAct(w, p, s, act) {
      match act
      case Depart(q, v) => DepartCarries(w, p, s, q, v, l);
      case DepartTele(_, _) => TeleCarries(w, p, s, act, l);
      case TeleArrive(_, _) => TeleCarries(w, p, s, act, l);
      case Act(q, a) => ActCarries(w, p, s, q, a, l);
      case Deliver(i, now) => DeliverCarries(w, p, s, i, now, l);
    }
  }

  lemma {:induction false} RunCarries(w: World, p: real, s: Sys, acts: seq<SysAction>, l: LinkId)
    requires Ok(w, p, s) && Carried(w, s, l)
    ensures Carried(w, RunAll(w, p, s, acts), l)
  {
    if acts != [] {
      var front := acts[..|acts| - 1];
      RunCarries(w, p, s, front, l);
      RunKeepsOk(w, p, s, front);
      StepCarries(w, p, RunAll(w, p, s, front), acts[|acts| - 1], l);
    }
  }

  /** The cross-partition ledger: in every state of every run, every split link is balanced. */
  lemma {:induction false} LedgerBalanced(w: World, p: real, s: Sys, acts: seq<SysAction>, l: LinkId)
    requires ValidWorld(w) && p > 0.0 && Initial(w, s) && Split(w.g, l)
    ensures Balanced(w, RunAll(w, p, s, acts), l)
  {
    InitialOk(w, p, s);
    BothSides(w, p, s, l);
    assert Carried(w, s, l);
    RunCarries(w, p, s, acts, l);
    RunKeepsOk(w, p, s, acts);
    CarriedIsBalanced(w, p, RunAll(w, p, s, acts), l);
  }
}
