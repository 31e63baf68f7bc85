/**
 * One partition of the network as a state machine: what every operation on a partition does to
 * the states of its links, to the sets of active links and nodes, and to the vehicle counter.
 */
module NetSpec {
  import opened Basics
  import opened FlowCap
  import opened Storage
  import opened StuckTimers
  import opened LinkSpec
  import opened RoadNetwork
  import opened Links
  import opened Totals

  /** A link is local, or it is the downstream or the upstream half of a split link. */
  datatype SimLinkState =
    | Local(s: LinkState)
    | In(fromPart: Part, s: LinkState)
    | Out(toPart: Part, o: OutState)

  /** Storage that was released on the link and that the upstream partition has to hear of. */
  datatype StorageUpdate = StorageUpdate(link: LinkId, fromPart: Part, released: real)

  datatype NetState = NetState(
    links: map<LinkId, SimLinkState>,
    activeLinks: set<LinkId>,
    activeNodes: set<NodeId>,
    vehCounter: int)

  /** What does not change in a run: the road network, the configuration, and the partition. */
  datatype Context = Context(g: RoadNet, c: Config, part: Part)

  ghost predicate ValidContext(x: Context)
  {
    Closed(x.g) && ValidConfig(x.c)
  }

  // ------------------------------------------------------------------ construction

  /** The partition has every link that starts or ends at one of its nodes. */
  predicate InPartition(x: Context, l: LinkId)
    requires EndsKnown(x.g, l)
  {
    FromPart(x.g, l) == x.part || ToPart(x.g, l) == x.part
  }

  function CreateSimLink(x: Context, l: LinkId): (sl: SimLinkState)
    requires ValidContext(x) && l in x.g.links
  {
    var link := x.g.links[l];
    var from, to := FromPart(x.g, l), ToPart(x.g, l);
    if from == to then Local(FreshLink(link, x.c))
    else if to == x.part then In(from, FreshLink(link, x.c))
    else Out(to, OutState([], StorageState(StorageMax(link, x.c), 0.0)))
  }

  function FromNetwork(x: Context): (net: NetState)
    requires ValidContext(x)
  {
    NetState(map l | l in x.g.links && InPartition(x, l) :: CreateSimLink(x, l), {}, {}, 0)
  }

  // ------------------------------------------------------------------ single links

  function Contents(sl: SimLinkState): (r: seq<Vehicle>)
  {
    if sl.Out? then sl.o.q else OnLink(sl.s)
  }

  function StorageOf(sl: SimLinkState): (r: StorageState)
  {
    if sl.Out? then sl.o.storage else sl.s.storage
  }

  /** A vehicle is put at the start of the queue. */
  function Push(sl: SimLinkState, v: Vehicle, now: Tick): (r: SimLinkState)
  {
    if sl.Out? then Out(sl.toPart, OutState(sl.o.q + [v], sl.o.storage.(used := sl.o.storage.used + v.pce)))
    else sl.(s := PushQueue(sl.s, v, now))
  }

  predicate OffersVeh(sl: SimLinkState)
  {
    !sl.Out? && Offers(sl.s)
  }

  /** Whether the vehicle that link l offers may move: its timer ran out, or there is space. */
  predicate ShouldMove(net: NetState, l: LinkId, now: Tick)
  {
    && MoveIsDefined(net, l)
    && var s := net.links[l].s;
       && s.timer.Some? && s.timer.value <= now
       && (Stuck(s.timer, s.attr.threshold, now) || Available(StorageOf(net.links[NextOf(net, l)])))
  }

  /** None of the places at which looking at link l or moving its offer could panic is reached. */
  predicate MoveIsDefined(net: NetState, l: LinkId)
  {
    && l in net.links && !net.links[l].Out?
    && Offers(net.links[l].s)
    && net.links[l].s.buffer[0].PeekNext().Some?
    && NextOf(net, l) in net.links && !net.links[NextOf(net, l)].In?
  }

  function NextOf(net: NetState, l: LinkId): (n: LinkId)
    requires l in net.links && !net.links[l].Out? && net.links[l].s.buffer != []
    requires net.links[l].s.buffer[0].PeekNext().Some?
  {
    net.links[l].s.buffer[0].PeekNext().value
  }

  /** The state with another state for link l. */
  function Put(net: NetState, l: LinkId, sl: SimLinkState): (r: NetState)
  {
    net.(links := net.links[l := sl])
  }

  // ------------------------------------------------------------------ operations

  datatype NetAction =
    | Begin(v: Vehicle)                  // a vehicle starts its leg on this partition
    | Receive(v: Vehicle, now: Tick)     // a vehicle arrives from another partition
    | Look(l: LinkId, t: Tick)           // a link is asked for its offer
    | Move(l: LinkId, now: Tick)         // a vehicle moves from its link to the next
    | Rest(n: NodeId)                    // a node is no longer active
    | StepLink(l: LinkId, now: Tick)     // the step of one link
    | Credit(l: LinkId, released: real)  // a split link hears of released storage

  ghost predicate Enabled(x: Context, net: NetState, a: NetAction)
  {
    match a
    case Begin(v) => v.Curr().Some? && v.Curr().value in net.links && !net.links[v.Curr().value].Out?
    case Receive(v, _) => v.Curr().Some? && v.Curr().value in net.links
    case Look(l, _) => l in net.links && !net.links[l].Out?
    case Move(l, now) => ShouldMove(net, l, now)
    case Rest(n) => forall l :: l in net.links && l in x.g.links && x.g.links[l].to == n ==> !OffersVeh(net.links[l])
    case StepLink(l, _) => l in net.links && l in x.g.links && (!net.links[l].Out? ==> net.links[l].s.attr.tps > 0)
    case Credit(l, _) => l in net.links && net.links[l].Out?
  }

  function MoveVehicle(net: NetState, l: LinkId, now: Tick): (r: NetState)
    requires MoveIsDefined(net, l)
  {
    var v := net.links[l].s.buffer[0];
    var n := NextOf(net, l);
    var popped := net.links[l := net.links[l].(s := Pop(net.links[l].s))];
    var moved := popped[n := Push(popped[n], v.LeftLink(), now)];
    var activated := net.activeLinks + {n};
    net.(links := moved,
         activeLinks := if Active(moved[l].s) then activated else activated - {l})
  }

  function StepOneLink(x: Context, net: NetState, l: LinkId, now: Tick): (r: NetState)
    requires l in net.links && l in x.g.links && (!net.links[l].Out? ==> net.links[l].s.attr.tps > 0)
  {
    var sl := net.links[l];
    if sl.Out? then
      net.(links := net.links[l := sl.(o := sl.o.(q := []))],
           activeLinks := net.activeLinks - {l},
           vehCounter := net.vehCounter - |sl.o.q|)
    else
      var f := SimStep(sl.s, now);
      net.(links := net.links[l := sl.(s := Offer(f.s, Next(now)))],
           activeLinks := if Active(f.s) then net.activeLinks else net.activeLinks - {l},
           activeNodes := if Offers(f.s) then net.activeNodes + {x.g.links[l].to} else net.activeNodes,
           vehCounter := net.vehCounter - |f.ended|)
  }

  ghost function Apply(x: Context, net: NetState, a: NetAction): (r: NetState)
  {
    if !Enabled(x, net, a) then net else
    match a
    case Begin(v) =>
      var l := v.Curr().value;
      net.(links := net.links[l := net.links[l].(s := PushWaiting(net.links[l].s, v))],
           activeLinks := net.activeLinks + {l}, vehCounter := net.vehCounter + 1)
    case Receive(v, now) =>
      var l := v.Curr().value;
      net.(links := net.links[l := Push(net.links[l], v, now)],
           activeLinks := net.activeLinks + {l}, vehCounter := net.vehCounter + 1)
    case Look(l, t) =>
      net.(links := net.links[l := net.links[l].(s := Offer(net.links[l].s, t))])
    case Move(l, now) => MoveVehicle(net, l, now)
    case Rest(n) => net.(activeNodes := net.activeNodes - {n})
    case StepLink(l, now) => StepOneLink(x, net, l, now)
    case Credit(l, released) =>
      var o := net.links[l].o;
      net.(links := net.links[l := net.links[l].(o := o.(storage := o.storage.(used := o.storage.used - released)))])
  }

  /** Vehicles that leave the partition in an action. */
  ghost function Exits(x: Context, net: NetState, a: NetAction): (r: seq<Vehicle>)
  {
    if Enabled(x, net, a) && a.StepLink? && net.links[a.l].Out? then net.links[a.l].o.q else []
  }

  /** Vehicles that end their leg in an action. */
  ghost function Ends(x: Context, net: NetState, a: NetAction): (r: seq<Vehicle>)
  {
    if Enabled(x, net, a) && a.StepLink? && !net.links[a.l].Out? then SimStep(net.links[a.l].s, a.now).ended else []
  }

  /** The storage that an action releases on the downstream half of a split link. */
  ghost function Releases(x: Context, net: NetState, a: NetAction): (r: seq<StorageUpdate>)
  {
    if Enabled(x, net, a) && a.StepLink? && net.links[a.l].In? then
      var sl := net.links[a.l];
      var diff := sl.s.storage.used - SimStep(sl.s, a.now).s.storage.used;
      if diff > 0.0 then [StorageUpdate(a.l, sl.fromPart, diff)] else []
    else []
  }

  ghost function Run(x: Context, net: NetState, acts: seq<NetAction>): (r: NetState)
  {
    if acts == [] then net else Apply(x, Run(x, net, acts[..|acts| - 1]), acts[|acts| - 1])
  }

  /** The vehicles that leave the partition in a run, those that end their leg, and what is released. */
  ghost function RunExits(x: Context, net: NetState, acts: seq<NetAction>): (r: seq<Vehicle>)
  {
    if acts == [] then [] else
    var front := acts[..|acts| - 1];
    RunExits(x, net, front) + Exits(x, Run(x, net, front), acts[|acts| - 1])
  }

  ghost function RunEnds(x: Context, net: NetState, acts: seq<NetAction>): (r: seq<Vehicle>)
  {
    if acts == [] then [] else
    var front := acts[..|acts| - 1];
    RunEnds(x, net, front) + Ends(x, Run(x, net, front), acts[|acts| - 1])
  }

  ghost function RunReleases(x: Context, net: NetState, acts: seq<NetAction>): (r: seq<StorageUpdate>)
  {
    if acts == [] then [] else
    var front := acts[..|acts| - 1];
    RunReleases(x, net, front) + Releases(x, Run(x, net, front), acts[|acts| - 1])
  }

  /** Every action of the run is one that its state allows without a panic. */
  ghost predicate Legal(x: Context, net: NetState, acts: seq<NetAction>)
  {
    acts == [] ||
    (Legal(x, net, acts[..|acts| - 1]) && Enabled(x, Run(x, net, acts[..|acts| - 1]), acts[|acts| - 1]))
  }

  /** One more action. */
  lemma {:induction false} RunSnoc(x: Context, net: NetState, acts: seq<NetAction>, a: NetAction)
    ensures Run(x, net, acts + [a]) == Apply(x, Run(x, net, acts), a)
    ensures Legal(x, net, acts) && Enabled(x, Run(x, net, acts), a) ==> Legal(x, net, acts + [a])
    ensures RunExits(x, net, acts + [a]) == RunExits(x, net, acts) + Exits(x, Run(x, net, acts), a)
    ensures RunEnds(x, net, acts + [a]) == RunEnds(x, net, acts) + Ends(x, Run(x, net, acts), a)
    ensures RunReleases(x, net, acts + [a]) == RunReleases(x, net, acts) + Releases(x, Run(x, net, acts), a)
  {
    assert (acts + [a])[..|acts + [a]| - 1] == acts;
  }

  lemma {:induction false} RunConcat(x: Context, net: NetState, a: seq<NetAction>, b: seq<NetAction>)
    ensures Run(x, net, a + b) == Run(x, Run(x, net, a), b)
    ensures Legal(x, net, a + b) <==> Legal(x, net, a) && Legal(x, Run(x, net, a), b)
  {
    if b == [] {
      assert a + b == a;
    } else {
      var n := |b| - 1;
      RunConcat(x, net, a, b[..n]);
      assert (a + b)[..|a + b| - 1] == a + b[..n];
    }
  }

  /** What leaves in one run after another. */
  lemma {:induction false} RunConcatOut(x: Context, net: NetState, a: seq<NetAction>, b: seq<NetAction>)
    ensures RunExits(x, net, a + b) == RunExits(x, net, a) + RunExits(x, Run(x, net, a), b)
    ensures RunEnds(x, net, a + b) == RunEnds(x, net, a) + RunEnds(x, Run(x, net, a), b)
    ensures RunReleases(x, net, a + b) == RunReleases(x, net, a) + RunReleases(x, Run(x, net, a), b)
  {
    hide Exits, Ends, Releases, Apply;
    if b == [] {
      assert a + b == a;
    } else {
      var n := |b| - 1;
      RunConcatOut(x, net, a, b[..n]);
      RunConcat(x, net, a, b[..n]);
      assert (a + b)[..|a + b| - 1] == a + b[..n];
    }
  }

  /** Only the steps of links let anything out. */
  lemma {:induction false} NothingOut(x: Context, net: NetState, acts: seq<NetAction>)
    requires forall a :: a in acts ==> !a.StepLink?
    ensures RunExits(x, net, acts) == [] && RunEnds(x, net, acts) == [] && RunReleases(x, net, acts) == []
  {
    if acts != [] {
      var front := acts[..|acts| - 1];
      assert acts[|acts| - 1] in acts && forall a :: a in front ==> a in acts;
      NothingOut(x, net, front);
    }
  }
}
