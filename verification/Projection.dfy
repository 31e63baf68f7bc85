/**
 * A run of a whole partition, seen from one of its links, is a run of that link. So what holds of
 * every run of a link holds of every link in every run of a partition.
 */
module Projection {
  import opened Basics
  import opened FlowCap
  import opened Storage
  import opened StuckTimers
  import opened LinkSpec
  import LinkRuns
  import LinkHistory
  import opened RoadNetwork
  import opened Links
  import opened NetSpec
  import NetInvariant

  /** What action a, taken in state net, means for link l. */
  ghost function Seen(x: Context, net: NetState, a: NetAction, l: LinkId): (r: seq<LinkRuns.LinkAction>)
  {
    if !Enabled(x, net, a) then [] else
    match a
    case Begin(v) => if v.Curr().value == l then [LinkRuns.Wait(v)] else []
    case Receive(v, now) => if v.Curr().value == l then [LinkRuns.Enter(v, now)] else []
    case Look(m, t) => if m == l then [LinkRuns.Ask(t)] else []
    case Move(m, now) =>
      (if m == l then [LinkRuns.Leave(now)] else []) +
      (if NextOf(net, m) == l then [LinkRuns.Enter(net.links[m].s.buffer[0].LeftLink(), now)] else [])
    case StepLink(m, now) => if m == l then [LinkRuns.Step(now), LinkRuns.Ask(Next(now))] else []
    case Rest(_) => []
    case Credit(_, _) => []
  }

  ghost function Project(x: Context, net: NetState, acts: seq<NetAction>, l: LinkId): (r: seq<LinkRuns.LinkAction>)
  {
    if acts == [] then [] else
    var front := acts[..|acts| - 1];
    Project(x, net, front, l) + Seen(x, Run(x, net, front), acts[|acts| - 1], l)
  }

  ghost predicate HasQueue(net: NetState, l: LinkId)
  {
    l in net.links && !net.links[l].Out? && net.links[l].s.attr.tps > 0
  }

  lemma {:induction false} RunTwo(s: LinkState, a: LinkRuns.LinkAction, b: LinkRuns.LinkAction)
    requires s.attr.tps > 0
    ensures LinkRuns.Run(s, []) == s
    ensures LinkRuns.Run(s, [a]) == LinkRuns.Apply(s, a)
    ensures LinkRuns.Run(s, [a, b]) == LinkRuns.Apply(LinkRuns.Apply(s, a), b)
  {
    hide LinkRuns.Apply;
    assert [a][..0] == [] && [a, b][..1] == [a];
  }

  lemma {:induction false} LinkRunConcat(s: LinkState, a: seq<LinkRuns.LinkAction>, b: seq<LinkRuns.LinkAction>)
    requires s.attr.tps > 0
    ensures LinkRuns.Run(s, a + b) == LinkRuns.Run(LinkRuns.Run(s, a), b)
  {
    hide LinkRuns.Apply;
    if b == [] {
      assert a + b == a;
    } else {
      var n := |b| - 1;
      LinkRunConcat(s, a, b[..n]);
      assert (a + b)[..|a + b| - 1] == a + b[..n];
    }
  }

  /** A move, seen from the link that is left, from the one that is entered, or from a third one. */
  lemma {:induction false} MoveSeen(x: Context, net: NetState, m: LinkId, now: Tick, l: LinkId)
    requires HasQueue(net, l) && Enabled(x, net, Move(m, now))
    ensures var r := MoveVehicle(net, m, now);
            HasQueue(r, l) && r.links[l].s == LinkRuns.Run(net.links[l].s, Seen(x, net, Move(m, now), l))
  {
    hide TravelTicks, SatAdd, LinkRuns.Run;
    var s, n := net.links[l].s, NextOf(net, m);
    var v := net.links[m].s.buffer[0].LeftLink();
    var leave, enter := LinkRuns.Leave(now), LinkRuns.Enter(v, now);
    var r, seen := MoveVehicle(net, m, now), Seen(x, net, Move(m, now), l);
    RunTwo(s, leave, enter);
    RunTwo(s, enter, enter);
    if m == l && n == l {
      assert seen == [leave, enter];
      assert r.links[l].s == PushQueue(Pop(s), v, now);
    } else if m == l {
      assert seen == [leave];
      assert r.links[l].s == Pop(s);
    } else if n == l {
      assert seen == [enter];
      assert r.links[l].s == PushQueue(s, v, now);
    } else {
      assert seen == [];
    }
  }

  lemma {:induction false} ActionSeen(x: Context, net: NetState, a: NetAction, l: LinkId)
    requires HasQueue(net, l)
    ensures var r := Apply(x, net, a);
            HasQueue(r, l) && r.links[l].s == LinkRuns.Run(net.links[l].s, Seen(x, net, a, l))
  {
    hide TravelTicks, SatAdd, LinkRuns.Run, SimStep, Push;
    var s := net.links[l].s;
    RunTwo(s, LinkRuns.Ask(0), LinkRuns.Ask(0));
    if Enabled(x, net, a) {
      match a
      case Begin(v) => RunTwo(s, LinkRuns.Wait(v), LinkRuns.Wait(v));
      case Receive(v, now) => EnterSeen(s, net.links[l], v, now);
      case Look(m, t) => RunTwo(s, LinkRuns.Ask(t), LinkRuns.Ask(t));
      case Move(m, now) => MoveSeen(x, net, m, now, l);
      case StepLink(m, now) => RunTwo(s, LinkRuns.Step(now), LinkRuns.Ask(Next(now)));
      case Rest(_) =>
      case Credit(_, _) =>
    }
  }

  lemma {:induction false} EnterSeen(s: LinkState, sl: SimLinkState, v: Vehicle, now: Tick)
    requires !sl.Out? && s == sl.s && s.attr.tps > 0
    ensures !Push(sl, v, now).Out? && Push(sl, v, now).s == LinkRuns.Run(s, [LinkRuns.Enter(v, now)])
    ensures Push(sl, v, now).s.attr == s.attr
  {
    RunTwo(s, LinkRuns.Enter(v, now), LinkRuns.Enter(v, now));
  }

  /** Every run of a partition is, for each of its links, a run of that link. */
  lemma {:induction false} RunSeen(x: Context, net: NetState, acts: seq<NetAction>, l: LinkId)
    requires HasQueue(net, l)
    ensures HasQueue(Run(x, net, acts), l)
    ensures Run(x, net, acts).links[l].s == LinkRuns.Run(net.links[l].s, Project(x, net, acts, l))
  {
    hide Apply, Enabled, LinkRuns.Apply, Seen;
    if acts != [] {
      var front, a := acts[..|acts| - 1], acts[|acts| - 1];
      RunSeen(x, net, front, l);
      ActionSeen(x, Run(x, net, front), a, l);
      LinkRunConcat(net.links[l].s, Project(x, net, front, l), Seen(x, Run(x, net, front), a, l));
    }
  }

  /** The vehicles that come onto a link are as small as those that come onto the partition. */
  lemma {:induction false} SeenAdmissible(x: Context, p: real, net: NetState, acts: seq<NetAction>, l: LinkId)
    requires NetInvariant.Inv(x, p, net) && forall a :: a in acts ==> NetInvariant.Sound(x, p, a)
    ensures LinkRuns.Admissible(Project(x, net, acts, l), p)
  {
    hide NetInvariant.Inv, NetInvariant.Sound, Apply, Enabled, Seen;
    if acts != [] {
      var front, a := acts[..|acts| - 1], acts[|acts| - 1];
      assert a in acts && forall b :: b in front ==> b in acts;
      SeenAdmissible(x, p, net, front, l);
      NetInvariant.RunKeepsInv(x, p, net, front);
      OneAdmissible(x, p, Run(x, net, front), a, l);
    }
  }

  lemma {:induction false} OneAdmissible(x: Context, p: real, net: NetState, a: NetAction, l: LinkId)
    requires NetInvariant.Inv(x, p, net) && NetInvariant.Sound(x, p, a)
    ensures LinkRuns.Admissible(Seen(x, net, a, l), p)
  {
    hide NetInvariant.Inv, NetInvariant.Placed, ShouldMove, MoveIsDefined;
    if a.Move? && Enabled(x, net, a) {
      MovedWithin(x, p, net, a.l, a.now);
    }
  }

  lemma {:induction false} MovedWithin(x: Context, p: real, net: NetState, l: LinkId, now: Tick)
    requires NetInvariant.Inv(x, p, net) && ShouldMove(net, l, now)
    ensures MoveIsDefined(net, l) && 0.0 < net.links[l].s.buffer[0].LeftLink().pce <= p
  {
    assert ValidConfig(x.c) && NetInvariant.LinksOk(x, p, net);
    hide NetInvariant.Inv, NetInvariant.LinksOk, NetInvariant.Placed;
    NetInvariant.MovedIsPlaced(x, p, net, l);
  }

  // ------------------------------------------------------------------ nodes act before links

  /** In every tick the nodes work before the links do, and ticks come in order. */
  ghost predicate MovesBeforeSteps(acts: seq<NetAction>)
  {
    forall i, j :: 0 <= i < j < |acts| && acts[i].StepLink? && acts[j].Move? ==> acts[i].now < acts[j].now
  }

  lemma {:induction false} StepsComeFromSteps(x: Context, net: NetState, acts: seq<NetAction>, l: LinkId, b: LinkRuns.LinkAction)
    requires b in Project(x, net, acts, l) && b.Step?
    ensures StepLink(l, b.now) in acts
  {
    var front, a := acts[..|acts| - 1], acts[|acts| - 1];
    assert acts == front + [a];
    if b in Project(x, net, front, l) {
      StepsComeFromSteps(x, net, front, l, b);
    }
  }

  lemma {:induction false} ProjectInOrder(x: Context, net: NetState, acts: seq<NetAction>, l: LinkId)
    requires MovesBeforeSteps(acts)
    ensures LinkHistory.NodesBeforeLinks(Project(x, net, acts, l))
  {
    if acts != [] {
      var n := |acts| - 1;
      var front, a := acts[..n], acts[n];
      ProjectInOrder(x, net, front, l);
      var p, more := Project(x, net, front, l), Seen(x, Run(x, net, front), a, l);
      if a.Move? {
        forall b | b in p && b.Step?
          ensures b.now < a.now
        {
          StepsComeFromSteps(x, net, front, l, b);
          var i :| 0 <= i < n && front[i] == StepLink(l, b.now);
          assert acts[i] == front[i];
        }
      }
      OrderExtends(p, more, a);
    }
  }

  lemma {:induction false} OrderExtends(p: seq<LinkRuns.LinkAction>, more: seq<LinkRuns.LinkAction>, a: NetAction)
    requires LinkHistory.NodesBeforeLinks(p)
    requires forall b :: b in more && b.Leave? ==> a.Move? && b.now == a.now
    requires a.Move? ==> forall b :: b in more ==> !b.Step?
    requires a.Move? ==> forall b :: b in p && b.Step? ==> b.now < a.now
    ensures LinkHistory.NodesBeforeLinks(p + more)
  {
    var all := p + more;
    forall i, j | 0 <= i < j < |all| && all[i].Step? && all[j].Leave?
      ensures all[i].now < all[j].now
    {
      if j >= |p| {
        assert all[j] in more;
        if i < |p| {
          assert all[i] in p;
        } else {
          assert false;
        }
      }
    }
  }

  // ------------------------------------------------------------------ what this gives

  /**
   * On every link of every partition, whatever the nodes draw and whatever arrives: vehicles leave
   * through the node in the order in which they entered the queue, and none leaves before its
   * entry tick plus its travel ticks plus one.
   */
  lemma {:induction false} FifoOnEveryLink(x: Context, acts: seq<NetAction>, l: LinkId)
    requires ValidContext(x) && MovesBeforeSteps(acts) && l in FromNetwork(x).links && !FromNetwork(x).links[l].Out?
    ensures var s := FromNetwork(x).links[l].s;
            var h := LinkHistory.Replay(s, Project(x, FromNetwork(x), acts, l));
            && HasQueue(Run(x, FromNetwork(x), acts), l) && h.s == Run(x, FromNetwork(x), acts).links[l].s
            && (forall i, j :: 0 <= i < j < |h.left| && h.left[i].tag >= 0 && h.left[j].tag >= 0 ==>
                  h.left[i].tag < h.left[j].tag)
            && (forall i :: 0 <= i < |h.left| && h.left[i].tag >= 0 ==>
                  && h.left[i].tag < |h.entered|
                  && h.left[i].veh == h.entered[h.left[i].tag].e.veh
                  && h.left[i].at >= SatAdd(h.entered[h.left[i].tag].at, TravelTicks(s.attr, h.left[i].veh)) + 1
                  && LinkHistory.HadTheTime(s.attr, h.left[i].veh, h.entered[h.left[i].tag].at, h.left[i].at))
  {
    hide LinkHistory.HadTheTime, Run, Project, SatAdd, TravelTicks, LinkHistory.Replay, LinkHistory.NodesBeforeLinks, MovesBeforeSteps, StorageMax;
    RunSeen(x, FromNetwork(x), acts, l);
    ProjectInOrder(x, FromNetwork(x), acts, l);
    LinkHistory.FifoAndMinimumTravelTime(FromNetwork(x).links[l].s, Project(x, FromNetwork(x), acts, l));
  }

  /** The token bucket bounds the outflow of every link over every stretch of every run of a partition. */
  lemma {:induction false} OutflowOfEveryLink(x: Context, p: real, net: NetState, acts: seq<NetAction>, l: LinkId, b: nat)
    requires NetInvariant.Inv(x, p, net) && (forall a :: a in acts ==> NetInvariant.Sound(x, p, a)) && HasQueue(net, l)
    requires HasQueue(Run(x, net, acts), l) ==> Run(x, net, acts).links[l].s.flow.last <= b
    ensures var s := net.links[l].s;
            && s.flow.last <= b
            && LinkRuns.Released(s, Project(x, net, acts, l)) < s.flow.perTick + Seconds(b - s.flow.last) * s.flow.perSecond + p
  {
    hide NetInvariant.Inv, NetInvariant.Sound, Run, Project, LinkRuns.Run, LinkRuns.Released, Seconds, LinkRuns.Inv, LinkRuns.Admissible;
    LinkInvOf(x, p, net, l);
    RunSeen(x, net, acts, l);
    SeenAdmissible(x, p, net, acts, l);
    LinkRuns.OutflowBound(net.links[l].s, Project(x, net, acts, l), p, b);
  }

  lemma {:induction false} LinkInvOf(x: Context, p: real, net: NetState, l: LinkId)
    requires NetInvariant.Inv(x, p, net) && l in net.links && !net.links[l].Out?
    ensures LinkRuns.Inv(net.links[l].s, p)
  {
    assert NetInvariant.LinkOk(x, p, l, net.links[l]);
  }

  /**
   * Soundness of the stuck timer over whole runs: if a vehicle may move although there is no space
   * on its next link, then the link was asked for it at least the threshold of ticks ago, and ever
   * since then that very vehicle has been at the head of the buffer.
   */
  lemma {:induction false} ForcedOnlyAfterThreshold(x: Context, p: real, acts: seq<NetAction>, l: LinkId, now: Tick) returns (i: nat)
    requires ValidContext(x) && p > 0.0 && forall k :: k in x.g.links ==> x.g.links[k].capacity >= 0.0
    requires forall a :: a in acts ==> NetInvariant.Sound(x, p, a)
    requires ShouldMove(Run(x, FromNetwork(x), acts), l, now)
    requires var net := Run(x, FromNetwork(x), acts); !Available(StorageOf(net.links[NextOf(net, l)]))
    ensures var net := FromNetwork(x);
            && HasQueue(net, l)
            && var s, seen := net.links[l].s, Project(x, net, acts, l);
               && i < |seen| && seen[i].Ask? && seen[i].t + s.attr.threshold <= now
               && LinkRuns.HeadUnchangedSince(s, seen, i)
               && LinkRuns.Run(s, seen).buffer == Run(x, net, acts).links[l].s.buffer
  {
    var net := FromNetwork(x);
    NetInvariant.InitialInv(x, p);
    QueueFromStart(x, p, net, acts, l);
    FreshTimers(x, l);
    RunSeen(x, net, acts, l);
    LinkInvOf(x, p, net, l);
    var s, seen := net.links[l].s, Project(x, net, acts, l);
    var end := Run(x, net, acts);
    hide FromNetwork, Run, Project, NetInvariant.Inv, NetInvariant.Sound, LinkRuns.HeadUnchangedSince, LinkRuns.Inv, LinkRuns.Run;
    SeenAdmissible(x, p, net, acts, l);
    assert end.links[l].s.timer.Some? && end.links[l].s.timer.value + end.links[l].s.attr.threshold <= now;
    i := LinkRuns.TimerMeansSameHead(s, seen, p);
  }

  lemma {:induction false} FreshTimers(x: Context, l: LinkId)
    requires ValidContext(x) && l in FromNetwork(x).links && !FromNetwork(x).links[l].Out?
    ensures FromNetwork(x).links[l].s.timer == None
  {
  }

  /** The links of a partition, and their kinds, are the same throughout a run. */
  lemma {:induction false} QueueFromStart(x: Context, p: real, net: NetState, acts: seq<NetAction>, l: LinkId)
    requires NetInvariant.Inv(x, p, net) && forall a :: a in acts ==> NetInvariant.Sound(x, p, a)
    requires l in Run(x, net, acts).links && !Run(x, net, acts).links[l].Out?
    ensures HasQueue(net, l)
  {
    NetInvariant.RunKeepsInv(x, p, net, acts);
    var end := Run(x, net, acts);
    hide Run, NetInvariant.Sound, NetInvariant.ActiveOk, NetInvariant.NodesOk, NetInvariant.OnNet;
    assert NetInvariant.LinkOk(x, p, l, end.links[l]);
    assert EndsKnown(x.g, l) && InPartition(x, l) && l in net.links;
    assert NetInvariant.LinkOk(x, p, l, net.links[l]);
  }
}
