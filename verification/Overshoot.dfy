/** By how much the storage of a link can be exceeded when no vehicle is forced onto it. */
module Overshoot {
  import opened Basics
  import opened Storage
  import opened LinkSpec
  import LinkRuns
  import opened RoadNetwork
  import opened Links
  import opened NetSpec
  import NetInvariant
  import opened System
  import Ledger

  /** A vehicle moves because its next link has space, not because it was stuck for too long. */
  ghost predicate UnforcedMove(net: NetState, a: NetAction)
  {
    a.Move? && MoveIsDefined(net, a.l) ==> Available(StorageOf(net.links[NextOf(net, a.l)]))
  }

  ghost predicate Unforced(w: World, p: real, s: Sys, act: SysAction)
  {
    act.Act? && act.q in s.parts ==> UnforcedMove(s.parts[act.q].net, act.a)
  }

  ghost predicate UnforcedRun(w: World, p: real, s: Sys, acts: seq<SysAction>)
  {
    acts == [] ||
    (UnforcedRun(w, p, s, acts[..|acts| - 1]) && Unforced(w, p, RunAll(w, p, s, acts[..|acts| - 1]), acts[|acts| - 1]))
  }

  predicate Within(sl: SimLinkState, p: real)
  {
    StorageOf(sl).used < StorageOf(sl).max + p
  }

  /** Every link on which this partition checks for space before it moves a vehicle is within bounds. */
  ghost predicate Checked(net: NetState, p: real)
  {
    forall l :: l in net.links && !net.links[l].In? ==> Within(net.links[l], p)
  }

  ghost predicate AllChecked(s: Sys, p: real)
  {
    forall q :: q in s.parts ==> Checked(s.parts[q].net, p)
  }

  lemma {:induction false} MoveChecked(x: Context, p: real, net: NetState, l: LinkId, now: Tick)
    requires ValidConfig(x.c) && NetInvariant.LinksOk(x, p, net) && Checked(net, p)
    requires MoveIsDefined(net, l) && UnforcedMove(net, Move(l, now))
    ensures Checked(MoveVehicle(net, l, now), p)
  {
    hide NetInvariant.LinksOk, NetInvariant.Placed, MoveVehicle;
    NetInvariant.MovedIsPlaced(x, p, net, l);
    MoveStorage(net, l, now);
    var r := MoveVehicle(net, l, now);
    forall k | k in r.links && !r.links[k].In?
      ensures Within(r.links[k], p)
    {
      assert Within(net.links[k], p);
    }
  }

  /** A move uses storage on the next link only. */
  lemma {:induction false} MoveStorage(net: NetState, l: LinkId, now: Tick)
    requires MoveIsDefined(net, l)
    ensures var r := MoveVehicle(net, l, now);
            && r.links.Keys == net.links.Keys
            && forall k :: k in net.links ==>
                 && r.links[k].In? == net.links[k].In? && StorageOf(r.links[k]).max == StorageOf(net.links[k]).max
                 && StorageOf(r.links[k]).used ==
                      StorageOf(net.links[k]).used + (if k == NextOf(net, l) then net.links[l].s.buffer[0].pce else 0.0)
  {
    hide TravelTicks;
  }

  lemma {:induction false} StepChecked(x: Context, p: real, net: NetState, l: LinkId, now: Tick)
    requires NetInvariant.Inv(x, p, net) && Checked(net, p) && Enabled(x, net, StepLink(l, now))
    ensures Checked(StepOneLink(x, net, l, now), p)
  {
    hide NetInvariant.Inv, StepOneLink;
    StepStorage(x, p, net, l, now);
    var r := StepOneLink(x, net, l, now);
    forall k | k in r.links && !r.links[k].In?
      ensures Within(r.links[k], p)
    {
      assert k in net.links && !net.links[k].In? && Within(net.links[k], p);
    }
  }

  /** A step uses no storage. */
  lemma {:induction false} StepStorage(x: Context, p: real, net: NetState, l: LinkId, now: Tick)
    requires NetInvariant.Inv(x, p, net) && Enabled(x, net, StepLink(l, now))
    ensures var r := StepOneLink(x, net, l, now);
            && r.links == net.links[l := r.links[l]] && r.links[l].In? == net.links[l].In?
            && StorageOf(r.links[l]).max == StorageOf(net.links[l]).max && StorageOf(r.links[l]).used <= StorageOf(net.links[l]).used
  {
    hide NetInvariant.OnNet, NetInvariant.ActiveOk, NetInvariant.NodesOk, SimStep, FreshLink, StorageMax;
    assert NetInvariant.LinkOk(x, p, l, net.links[l]);
    if !net.links[l].Out? {
      Ledger.ReleaseNotNegative(net.links[l].s, now, p);
      SimStepShape(net.links[l].s, now);
    }
  }

  lemma {:induction false} WorkChecked(x: Context, p: real, net: NetState, a: NetAction)
    requires NetInvariant.Inv(x, p, net) && Checked(net, p) && Enabled(x, net, a) && Works(a) && UnforcedMove(net, a)
    ensures Checked(Apply(x, net, a), p)
  {
    hide Within, StepOneLink, MoveVehicle, SimStep, UnforcedMove, NetInvariant.LinksOk, NetInvariant.OnNet;
    match a
    case Move(l, now) => MoveChecked(x, p, net, l, now);
    case StepLink(l, now) => StepChecked(x, p, net, l, now);
    case Look(l, t) => OneLinkChecked(net, Apply(x, net, a), l, p);
    case Rest(n) =>
  }

  /** One link changes; its storage use does not grow. */
  lemma {:induction false} OneLinkChecked(net: NetState, r: NetState, l: LinkId, p: real)
    requires Checked(net, p) && l in net.links && r.links.Keys == net.links.Keys
    requires forall k :: k in net.links && k != l ==> r.links[k] == net.links[k]
    requires r.links[l].In? == net.links[l].In?
    requires r.links[l].In? || (StorageOf(r.links[l]).max == StorageOf(net.links[l]).max
                                && StorageOf(r.links[l]).used <= StorageOf(net.links[l]).used)
    ensures Checked(r, p)
  {
  }

  lemma {:induction false} DeliveryChecked(w: World, p: real, s: Sys, k: Packet, now: Tick)
    requires Ok(w, p, s) && PacketOk(w, p, k) && AllChecked(s, p)
    ensures Destination(w.g, k).Some? && Destination(w.g, k).value in s.parts
    ensures Checked(DeliverTo(w, s, Destination(w.g, k).value, k, now).0.net, p)
  {
    hide Ok, NetInvariant.Sound, NetInvariant.Connected;
    PacketDeliverable(w, p, s, k, now);
    var q := Destination(w.g, k).value;
    var net := s.parts[q].net;
    match k
    case Veh(v) => OneLinkChecked(net, DeliverTo(w, s, q, k, now).0.net, v.route[v.pos], p);
    case Update(u) => OneLinkChecked(net, DeliverTo(w, s, q, k, now).0.net, u.link, p);
    case Tele(t) =>
  }

  lemma {:induction false} OnePartChecked(s: Sys, r: Sys, q: Part, p: real)
    requires AllChecked(s, p) && q in r.parts && r.parts == s.parts[q := r.parts[q]]
    requires Checked(r.parts[q].net, p)
    ensures AllChecked(r, p)
  {
    hide Checked;
  }

  lemma {:induction false} ActKeepsChecked(w: World, p: real, s: Sys, q: Part, a: NetAction)
    requires Ok(w, p, s) && AllChecked(s, p) && CanAct(w, p, s, Act(q, a)) && UnforcedMove(s.parts[q].net, a)
    ensures AllChecked(Step(w, p, s, Act(q, a)), p)
  {
    hide NetInvariant.Inv, Checked, Enabled, Apply, FlightOk, ValidWorld, UnforcedMove, Works;
    NetOf(w, p, s, q);
    WorkChecked(Ctx(w, q), p, s.parts[q].net, a);
    OnePartChecked(s, Step(w, p, s, Act(q, a)), q, p);
  }

  lemma {:induction false} DepartKeepsChecked(w: World, p: real, s: Sys, q: Part, v: Vehicle)
    requires Ok(w, p, s) && AllChecked(s, p) && CanAct(w, p, s, Depart(q, v))
    ensures AllChecked(Step(w, p, s, Depart(q, v)), p)
  {
    hide Ok, Checked, Enabled, Apply, NetInvariant.Placed, NetInvariant.Sound;
    DepartKeepsOk(w, p, s, q, v);
    BeginChecked(Ctx(w, q), s.parts[q].net, v, p);
    OnePartChecked(s, Step(w, p, s, Depart(q, v)), q, p);
  }

  lemma {:induction false} DeliverKeepsChecked(w: World, p: real, s: Sys, i: nat, now: Tick)
    requires Ok(w, p, s) && AllChecked(s, p) && i < |s.flight|
    ensures AllChecked(Step(w, p, s, Deliver(i, now)), p)
  {
    hide Ok, Checked, PacketOk, DeliverTo, Step, Destination;
    DeliverStep(w, p, s, i, now);
    DeliveryChecked(w, p, s, s.flight[i], now);
    OnePartChecked(s, Step(w, p, s, Deliver(i, now)), Destination(w.g, s.flight[i]).value, p);
  }

  lemma {:induction false} StepKeepsChecked(w: World, p: real, s: Sys, act: SysAction)
    requires Ok(w, p, s) && AllChecked(s, p) && Unforced(w, p, s, act)
    ensures AllChecked(Step(w, p, s, act), p)
  {
    hide Ok, Checked, Apply, Enabled, UnforcedMove, NetInvariant.Placed;
    if CanAct(w, p, s, act) {
      match act
      case Depart(q, v) => DepartKeepsChecked(w, p, s, q, v);
      case DepartTele(q, t) => OnePartChecked(s, Step(w, p, s, act), q, p);
      case TeleArrive(q, i) => OnePartChecked(s, Step(w, p, s, act), q, p);
      case Act(q, a) => ActKeepsChecked(w, p, s, q, a);
      case Deliver(i, now) => DeliverKeepsChecked(w, p, s, i, now);
    }
  }

  lemma {:induction false} BeginChecked(x: Context, net: NetState, v: Vehicle, p: real)
    requires Checked(net, p) && Enabled(x, net, Begin(v))
    ensures Checked(Apply(x, net, Begin(v)), p)
  {
    OneLinkChecked(net, Apply(x, net, Begin(v)), v.Curr().value, p);
  }

  lemma {:induction false} RunKeepsChecked(w: World, p: real, s: Sys, acts: seq<SysAction>)
    requires Ok(w, p, s) && AllChecked(s, p) && UnforcedRun(w, p, s, acts)
    ensures AllChecked(RunAll(w, p, s, acts), p)
  {
    if acts != [] {
      var front := acts[..|acts| - 1];
      RunKeepsChecked(w, p, s, front);
      RunKeepsOk(w, p, s, front);
      StepKeepsChecked(w, p, RunAll(w, p, s, front), acts[|acts| - 1]);
    }
  }

  /** The two halves of a split link have the same maximum. */
  lemma {:induction false} SameMax(w: World, p: real, s: Sys, l: LinkId)
    requires Ok(w, p, s) && Split(w.g, l)
    ensures Both(w, s, l)
    ensures var up, down := s.parts[FromPart(w.g, l)].net.links[l], s.parts[ToPart(w.g, l)].net.links[l];
            && StorageOf(up).max == StorageOf(down).max == StorageMax(w.g.links[l], w.c)
            && Pce(up.o.q) >= 0.0
  {
    hide PartsOk, FlightOk, ValidWorld, NetInvariant.Inv, StorageMax, NetInvariant.Placed;
    BothSides(w, p, s, l);
    var a, b := FromPart(w.g, l), ToPart(w.g, l);
    NetOf(w, p, s, a);
    NetOf(w, p, s, b);
    NetHasLink(Ctx(w, a), p, s.parts[a].net, l);
    NetHasLink(Ctx(w, b), p, s.parts[b].net, l);
    PcePositive(s.parts[a].net.links[l].o.q, p);
  }

  /** The downstream half checks nothing; its bound comes from the ledger. */
  lemma {:induction false} DownWithin(w: World, p: real, s: Sys, l: LinkId)
    requires Ok(w, p, s) && AllChecked(s, p) && Split(w.g, l) && Ledger.Balanced(w, s, l)
    ensures Within(s.parts[ToPart(w.g, l)].net.links[l], p)
  {
    SameMax(w, p, s, l);
    Ledger.OwedNonNegative(w, p, s.flight, l);
    hide Ok, StorageMax, Pce, Ledger.Owed;
    assert Within(s.parts[FromPart(w.g, l)].net.links[l], p);
  }

  lemma {:induction false} InitialChecked(w: World, p: real, s: Sys)
    requires ValidWorld(w) && p > 0.0 && Initial(w, s)
    ensures AllChecked(s, p)
  {
    forall q | q in s.parts
      ensures Checked(s.parts[q].net, p)
    {
      FreshChecked(Ctx(w, q), p);
    }
  }

  lemma {:induction false} FreshChecked(x: Context, p: real)
    requires ValidContext(x) && p > 0.0 && forall l :: l in x.g.links ==> x.g.links[l].capacity >= 0.0
    ensures Checked(FromNetwork(x), p)
  {
    hide StorageMax;
    forall l | l in FromNetwork(x).links
      ensures Within(FromNetwork(x).links[l], p)
    {
      MaxNotNegative(x.g.links[l], x.c);
    }
  }

  lemma {:induction false} MaxNotNegative(l: NetLink, c: Config)
    requires ValidConfig(c) && l.capacity >= 0.0
    ensures StorageMax(l, c) >= 0.0
  {
    assert l.capacity * c.sampleSize >= 0.0;
  }

  /**
   * The overshoot bound: in every run in which no vehicle is forced onto a full link, the storage
   * in use on every link of every partition, local or either half of a split link, stays below
   * the link's maximum plus one vehicle.
   */
  lemma {:induction false} OvershootBound(w: World, p: real, s: Sys, acts: seq<SysAction>, q: Part, l: LinkId)
    requires ValidWorld(w) && p > 0.0 && Initial(w, s) && UnforcedRun(w, p, s, acts)
    requires q in RunAll(w, p, s, acts).parts && l in RunAll(w, p, s, acts).parts[q].net.links
    ensures Within(RunAll(w, p, s, acts).parts[q].net.links[l], p)
  {
    InitialOk(w, p, s);
    InitialChecked(w, p, s);
    RunKeepsChecked(w, p, s, acts);
    RunKeepsOk(w, p, s, acts);
    var r := RunAll(w, p, s, acts);
    if r.parts[q].net.links[l].In? {
      NetOf(w, p, r, q);
      InIsSplit(Ctx(w, q), p, r.parts[q].net, l);
      Ledger.LedgerBalanced(w, p, s, acts, l);
      hide Ok, Within, NetInvariant.Inv, RunAll;
      DownWithin(w, p, r, l);
    }
  }

  lemma {:induction false} InIsSplit(x: Context, p: real, net: NetState, l: LinkId)
    requires NetInvariant.Inv(x, p, net) && l in net.links && net.links[l].In?
    ensures Split(x.g, l) && ToPart(x.g, l) == x.part
  {
    assert NetInvariant.LinkOk(x, p, l, net.links[l]);
  }
}
