/**
 * The engine that moves agents on legs: one tick of a partition, in the order in which the
 * simulation does things, with the network and the queue of teleported vehicles.
 */
module LegEngines {
  import opened Basics
  import opened LinkSpec
  import opened RoadNetwork
  import opened NetSpec
  import opened NodeMoves
  import opened NodeLoop
  import opened Clock
  import opened TimeQueues
  import opened System
  import opened Links
  import opened Totals
  import NetInvariant
  import Partition
  import Projection

  /** Who starts a leg or comes from another partition: on the network, or teleported in a given time. */
  datatype Rider = Drive(v: Vehicle) | Ride(t: Teleporter, travelTime: nat)

  datatype SyncMessage = SyncMessage(updates: seq<StorageUpdate>, riders: seq<Rider>)

  function Drivers(rs: seq<Rider>): (vs: seq<Vehicle>)
  {
    if rs == [] then [] else (if rs[0].Drive? then [rs[0].v] else []) + Drivers(rs[1..])
  }

  function Rides(rs: seq<Rider>): (ts: seq<Teleporter>)
  {
    if rs == [] then [] else (if rs[0].Ride? then [rs[0].t] else []) + Rides(rs[1..])
  }

  /** The teleported vehicles of several messages. */
  function AllRides(ms: seq<SyncMessage>): (ts: seq<Teleporter>)
  {
    if ms == [] then [] else AllRides(ms[..|ms| - 1]) + Rides(ms[|ms| - 1].riders)
  }

  /** The drivers of several messages. */
  function AllDrivers(ms: seq<SyncMessage>): (vs: seq<Vehicle>)
  {
    if ms == [] then [] else AllDrivers(ms[..|ms| - 1]) + Drivers(ms[|ms| - 1].riders)
  }

  /** Those whose leg does not end in this partition. */
  function Away(g: RoadNet, part: Part, ts: seq<Teleporter>): (r: seq<Teleporter>)
  {
    if ts == [] then []
    else
      var last := ts[|ts| - 1];
      Away(g, part, ts[..|ts| - 1]) + (if last.end in g.links && g.links[last.end].part == part then [] else [last])
  }

  /** What a queue of teleported vehicles holds: who arrives when. */
  function Timed(es: seq<Entry<Teleporter>>): (r: seq<(nat, Teleporter)>)
  {
    if es == [] then [] else Timed(es[..|es| - 1]) + [(es[|es| - 1].endTime, es[|es| - 1].value)]
  }

  /** The riders whose leg ends in this partition arrive their travel time after the given one. */
  function Queued(g: RoadNet, part: Part, rs: seq<Rider>, start: nat): (r: seq<(nat, Teleporter)>)
  {
    if rs == [] then []
    else
      var last := rs[|rs| - 1];
      Queued(g, part, rs[..|rs| - 1], start) +
      (if last.Ride? && last.t.end in g.links && g.links[last.t.end].part == part then [(start + last.travelTime, last.t)] else [])
  }

  function AllQueued(g: RoadNet, part: Part, ms: seq<SyncMessage>, start: nat): (r: seq<(nat, Teleporter)>)
  {
    if ms == [] then [] else AllQueued(g, part, ms[..|ms| - 1], start) + Queued(g, part, ms[|ms| - 1].riders, start)
  }

  /** Taking one message: its storage updates in order, and then its drivers. */
  ghost function Taking(m: SyncMessage, now: Tick): (acts: seq<NetAction>)
  {
    Partition.Credits(m.updates) + Partition.Sends(Drivers(m.riders), false, now)
  }

  ghost function TakingAll(ms: seq<SyncMessage>, now: Tick): (acts: seq<NetAction>)
  {
    if ms == [] then [] else TakingAll(ms[..|ms| - 1], now) + Taking(ms[|ms| - 1], now)
  }

  class TeleportationEngine {
    const tps: nat
    const part: Part
    const queue: TimeQueue<Teleporter>

    constructor (tps: nat, part: Part)
      ensures this.tps == tps && this.part == part && fresh(queue) && queue.q == []
    {
      this.tps := tps;
      this.part := part;
      queue := new TimeQueue();
    }

    /** Queues a vehicle whose leg ends in this partition; any other one is handed on. */
    method ReceiveVehicle(g: RoadNet, now: Tick, t: Teleporter, travelTime: nat) returns (forward: Option<Teleporter>)
      requires t.end in g.links && tps > 0 && TickNanos(tps, now) + travelTime <= U64_MAX
      modifies queue
      ensures forward == if g.links[t.end].part == part then None else Some(t)
      ensures old(queue.q) <= queue.q
      ensures Values(queue.q) == if g.links[t.end].part == part then old(Values(queue.q)) + [t] else old(Values(queue.q))
      ensures g.links[t.end].part == part ==> queue.q[|queue.q| - 1].endTime == TickNanos(tps, now) + travelTime
    {
      if g.links[t.end].part == part {
        queue.Add(t, TickNanos(tps, now) + travelTime);
        forward := None;
      } else {
        forward := Some(t);
      }
    }

    /** Vehicles arrive at the first tick whose time reaches their arrival time, and not before. */
    method DoStep(now: Tick) returns (arrived: seq<Teleporter>, ghost popped: seq<Entry<Teleporter>>)
      requires tps > 0
      modifies queue
      ensures arrived == Values(popped) && multiset(old(queue.q)) == multiset(queue.q) + multiset(popped)
      ensures old(multiset(Values(queue.q))) == multiset(Values(queue.q)) + multiset(arrived)
      ensures forall e :: e in popped ==> CeilTicks(tps, e.endTime) <= now
      ensures forall e :: e in queue.q ==> CeilTicks(tps, e.endTime) > now
    {
      arrived, popped := queue.Pop(TickNanos(tps, now));
      ValuesSplit(old(queue.q), queue.q, popped);
      forall e | e in popped || e in queue.q
        ensures CeilTicks(tps, e.endTime) <= now <==> e.endTime <= TickNanos(tps, now)
      {
        Adjunction(tps, e.endTime, now);
      }
    }
  }

  /** Within a tick nodes work before links, and both at the time of the tick. */
  ghost predicate TickOrdered(acts: seq<NetAction>, now: Tick)
  {
    && (forall i :: 0 <= i < |acts| && (acts[i].Move? || acts[i].StepLink?) ==> acts[i].now == now)
    && (forall i, j :: 0 <= i < j < |acts| ==> !(acts[i].StepLink? && acts[j].Move?))
  }

  class LegEngine {
    const network: Partition.SimNetworkPartition
    const teleport: TeleportationEngine

    ghost predicate Valid()
    {
      network.Valid() && teleport.queue !in network.repr && teleport.tps > 0 && teleport.part == network.x.part
    }

    constructor (network: Partition.SimNetworkPartition, tps: nat, part: Part)
      requires network.Valid() && tps > 0 && part == network.x.part
      ensures Valid() && this.network == network && teleport.tps == tps && fresh(teleport) && fresh(teleport.queue)
    {
      this.network := network;
      teleport := new TeleportationEngine(tps, part);
    }

    /** What the engine takes from agents and from other partitions. */
    ghost predicate CanPass(r: Rider, routeBegin: bool, now: Tick, p: real)
      requires Valid()
    {
      match r
      case Drive(v) => network.CanSend(v, routeBegin, p)
      case Ride(t, travelTime) => t.end in network.x.g.links && TickNanos(teleport.tps, now) + travelTime <= U64_MAX
    }

    /** The vehicles that are being teleported here. */
    ghost function Teleported(): (r: multiset<Teleporter>)
      reads teleport.queue
    {
      multiset(Values(teleport.queue.q))
    }

    /** A vehicle goes onto the network or is teleported. */
    method PassToEngine(r: Rider, routeBegin: bool, now: Tick, g: RoadNet, ghost p: real)
      returns (forwarded: seq<Teleporter>, ghost acts: seq<NetAction>)
      requires Valid() && network.x.g == g && NetInvariant.Inv(network.x, p, network.View()) && CanPass(r, routeBegin, now, p)
      modifies network.repr, teleport.queue
      ensures acts == Partition.Sends(if r.Drive? then [r.v] else [], routeBegin, now)
      ensures network.View() == Run(network.x, old(network.View()), acts) && Legal(network.x, old(network.View()), acts)
      ensures NetInvariant.Inv(network.x, p, network.View())
      ensures forwarded == Away(g, teleport.part, if r.Ride? then [r.t] else []) && old(teleport.queue.q) <= teleport.queue.q
      ensures Teleported() + multiset(forwarded) == old(Teleported()) + multiset(if r.Ride? then [r.t] else [])
      ensures Timed(teleport.queue.q) == old(Timed(teleport.queue.q)) + Queued(g, teleport.part, [r], TickNanos(teleport.tps, now))
    {
      hide NetInvariant.Inv, Run, Legal, Apply, Enabled, Partition.SimNetworkPartition.View, Partition.SimNetworkPartition.Valid;
      hide Partition.SimNetworkPartition.Apart, Timed, Queued, TickNanos, Away;
      network.ValidIsApart();
      ghost var x, start := network.x, network.View();
      forwarded, acts := [], [];
      Partition.RunNothing(x, start);
      OneQueued(g, teleport.part, r, TickNanos(teleport.tps, now));
      OneAway(g, teleport.part, r);
      match r {
        case Drive(v) =>
          ghost var a := if routeBegin then Begin(v) else Receive(v, now);
          RunSnoc(x, start, [], a);
          network.SendVehEnRoute(v, routeBegin, now, p);
          acts := [] + [a];
        case Ride(t, travelTime) =>
          ghost var queue := teleport.queue.q;
          var forward := teleport.ReceiveVehicle(g, now, t, travelTime);
          QueueGrew(queue, teleport.queue.q, t);
          if forward.Some? {
            forwarded := [forward.value];
          }
      }
    }

    method PassToEngines(rs: seq<Rider>, routeBegin: bool, now: Tick, g: RoadNet, ghost p: real)
      returns (forwarded: seq<Teleporter>, ghost acts: seq<NetAction>)
      requires Valid() && network.x.g == g && NetInvariant.Inv(network.x, p, network.View())
      requires forall i :: 0 <= i < |rs| ==> CanPass(rs[i], routeBegin, now, p)
      modifies network.repr, teleport.queue
      ensures acts == Partition.Sends(Drivers(rs), routeBegin, now)
      ensures network.View() == Run(network.x, old(network.View()), acts) && Legal(network.x, old(network.View()), acts)
      ensures NetInvariant.Inv(network.x, p, network.View())
      ensures forwarded == Away(g, teleport.part, Rides(rs)) && old(teleport.queue.q) <= teleport.queue.q
      ensures Teleported() + multiset(forwarded) == old(Teleported()) + multiset(Rides(rs))
      ensures Timed(teleport.queue.q) == old(Timed(teleport.queue.q)) + Queued(g, teleport.part, rs, TickNanos(teleport.tps, now))
    {
      hide NetInvariant.Inv, Run, Legal, Partition.SimNetworkPartition.View, Partition.SimNetworkPartition.Valid;
      hide Partition.SimNetworkPartition.Apart, CanPass, Teleported, Away, Timed, Queued, TickNanos;
      network.ValidIsApart();
      ghost var x, start := network.x, network.View();
      forwarded, acts := [], [];
      Partition.RunNothing(x, start);
      NoneQueued(g, teleport.part, TickNanos(teleport.tps, now));
      assert rs[..0] == [] && Partition.Sends(Drivers([]), routeBegin, now) == [];
      NobodyAway(g, teleport.part);
      for i := 0 to |rs|
        invariant acts == Partition.Sends(Drivers(rs[..i]), routeBegin, now)
        invariant network.View() == Run(x, start, acts) && Legal(x, start, acts)
        invariant NetInvariant.Inv(x, p, network.View())
        invariant forwarded == Away(g, teleport.part, Rides(rs[..i])) && old(teleport.queue.q) <= teleport.queue.q
        invariant Teleported() + multiset(forwarded) == old(Teleported()) + multiset(Rides(rs[..i]))
        invariant Timed(teleport.queue.q) == old(Timed(teleport.queue.q)) + Queued(g, teleport.part, rs[..i], TickNanos(teleport.tps, now))
      {
        QueuedMore(g, teleport.part, rs, i, TickNanos(teleport.tps, now));
        DriversSnoc(rs[..i], rs[i]);
        assert rs[..i + 1] == rs[..i] + [rs[i]];
        ghost var before := Teleported();
        var more;
        ghost var sent;
        more, sent := PassToEngine(rs[i], routeBegin, now, g, p);
        RunConcat(x, start, acts, sent);
        MoreRides(before, Teleported(), forwarded, more, old(Teleported()), Rides(rs[..i]), if rs[i].Ride? then [rs[i].t] else []);
        AwayConcat(g, teleport.part, Rides(rs[..i]), if rs[i].Ride? then [rs[i].t] else []);
        SendsConcat(Drivers(rs[..i]), if rs[i].Drive? then [rs[i].v] else [], routeBegin, now);
        InTurn(old(Timed(teleport.queue.q)), Queued(g, teleport.part, rs[..i], TickNanos(teleport.tps, now)),
              Queued(g, teleport.part, [rs[i]], TickNanos(teleport.tps, now)));
        acts, forwarded := acts + sent, forwarded + more;
      }
      assert rs[..|rs|] == rs;
    }

    method TakeMessage(m: SyncMessage, now: Tick, g: RoadNet, ghost p: real)
      returns (forwarded: seq<Teleporter>, ghost acts: seq<NetAction>)
      requires Valid() && network.x.g == g && NetInvariant.Inv(network.x, p, network.View()) && CanTake(m, now, p)
      modifies network.repr, teleport.queue
      ensures network.View() == Run(network.x, old(network.View()), acts) && Legal(network.x, old(network.View()), acts)
      ensures NetInvariant.Inv(network.x, p, network.View())
      ensures acts == Taking(m, now)
      ensures forwarded == Away(g, teleport.part, Rides(m.riders)) && old(teleport.queue.q) <= teleport.queue.q
      ensures Teleported() + multiset(forwarded) == old(Teleported()) + multiset(Rides(m.riders))
      ensures Timed(teleport.queue.q) == old(Timed(teleport.queue.q)) + Queued(g, teleport.part, m.riders, TickNanos(teleport.tps, now))
    {
      hide NetInvariant.Inv, Run, Legal, Partition.SimNetworkPartition.View, Partition.SimNetworkPartition.Valid;
      hide Partition.SimNetworkPartition.Apart, CanPass, Rides, Away;
      network.ValidIsApart();
      ghost var start := network.View();
      network.ApplyStorageCapUpdates(m.updates, p);
      ghost var sent;
      forwarded, sent := PassToEngines(m.riders, false, now, g, p);
      RunConcat(network.x, start, Partition.Credits(m.updates), sent);
      acts := Partition.Credits(m.updates) + sent;
    }

    /** What comes from other partitions: released storage first, then vehicles, message by message. */
    method TakeIn(inbox: seq<SyncMessage>, now: Tick, g: RoadNet, ghost p: real)
      returns (forwarded: seq<Teleporter>, ghost acts: seq<NetAction>)
      requires Valid() && network.x.g == g && NetInvariant.Inv(network.x, p, network.View())
      requires forall i :: 0 <= i < |inbox| ==> CanTake(inbox[i], now, p)
      modifies network.repr, teleport.queue
      ensures network.View() == Run(network.x, old(network.View()), acts) && Legal(network.x, old(network.View()), acts)
      ensures NetInvariant.Inv(network.x, p, network.View())
      ensures acts == TakingAll(inbox, now)
      ensures forwarded == Away(g, teleport.part, AllRides(inbox)) && old(teleport.queue.q) <= teleport.queue.q
      ensures Teleported() + multiset(forwarded) == old(Teleported()) + multiset(AllRides(inbox))
      ensures Timed(teleport.queue.q) == old(Timed(teleport.queue.q)) + AllQueued(g, teleport.part, inbox, TickNanos(teleport.tps, now))
    {
      hide NetInvariant.Inv, Run, Legal, Apply, Enabled, Partition.SimNetworkPartition.View, Partition.SimNetworkPartition.Valid;
      hide Partition.SimNetworkPartition.Apart, CanTake, Teleported, Rides, Taking, Away, Timed, Queued, TickNanos;
      network.ValidIsApart();
      ghost var x, start := network.x, network.View();
      forwarded, acts := [], [];
      Partition.RunNothing(x, start);
      NobodyAway(g, teleport.part);
      for i := 0 to |inbox|
        invariant network.View() == Run(x, start, acts) && Legal(x, start, acts)
        invariant NetInvariant.Inv(x, p, network.View())
        invariant acts == TakingAll(inbox[..i], now)
        invariant forwarded == Away(g, teleport.part, AllRides(inbox[..i])) && old(teleport.queue.q) <= teleport.queue.q
        invariant Teleported() + multiset(forwarded) == old(Teleported()) + multiset(AllRides(inbox[..i]))
        invariant Timed(teleport.queue.q) == old(Timed(teleport.queue.q)) + AllQueued(g, teleport.part, inbox[..i], TickNanos(teleport.tps, now))
      {
        AllQueuedMore(g, teleport.part, inbox, i, TickNanos(teleport.tps, now));
        ghost var before := Teleported();
        var more;
        ghost var sent;
        more, sent := TakeMessage(inbox[i], now, g, p);
        RunConcat(x, start, acts, sent);
        assert inbox[..i + 1][..i] == inbox[..i];
        AwayConcat(g, teleport.part, AllRides(inbox[..i]), Rides(inbox[i].riders));
        MoreRides(before, Teleported(), forwarded, more, old(Teleported()), AllRides(inbox[..i]), Rides(inbox[i].riders));
        InTurn(old(Timed(teleport.queue.q)), AllQueued(g, teleport.part, inbox[..i], TickNanos(teleport.tps, now)),
              Queued(g, teleport.part, inbox[i].riders, TickNanos(teleport.tps, now)));
        acts, forwarded := acts + sent, forwarded + more;
      }
      assert inbox[..|inbox|] == inbox;
    }

    /** Exactly the teleported vehicles whose tick has come arrive. */
    method Arrive(now: Tick) returns (arrived: seq<Teleporter>, ghost due: seq<Entry<Teleporter>>)
      requires Valid()
      modifies teleport.queue
      ensures old(Teleported()) == Teleported() + multiset(arrived)
      ensures DueTaken(teleport.tps, now, old(Timed(teleport.queue.q)), Timed(due), Timed(teleport.queue.q))
      ensures arrived == Values(due) && forall e :: e in due ==> e in old(teleport.queue.q) && CeilTicks(teleport.tps, e.endTime) <= now
      ensures forall e :: e in old(teleport.queue.q) && CeilTicks(teleport.tps, e.endTime) <= now ==> e in due
    {
      arrived, due := teleport.DoStep(now);
      InEither(old(teleport.queue.q), teleport.queue.q, due);
      DueAreTaken(teleport.tps, now, old(teleport.queue.q), due, teleport.queue.q);
    }

    ghost predicate CanTake(m: SyncMessage, now: Tick, p: real)
      requires Valid()
    {
      && (forall i :: 0 <= i < |m.updates| ==> m.updates[i].link in network.links && network.links[m.updates[i].link].OutSim?)
      && (forall i :: 0 <= i < |m.riders| ==> CanPass(m.riders[i], false, now, p))
    }

    /**
     * One tick: agents depart, teleported vehicles arrive, nodes work, links step, and then what
     * other partitions have sent is taken in. Every departing driver, every driver and every update
     * that was sent here is used exactly once. Timers that the tick may read were started at or
     * before it, and the timers it leaves behind are those the next tick may read.
     */
    method DoStep(now: Tick, departures: seq<Rider>, inbox: seq<SyncMessage>, g: RoadNet, ghost p: real)
      returns (ended: seq<Vehicle>, arrived: seq<Teleporter>, exits: seq<Vehicle>, forwarded: seq<Teleporter>,
               updates: seq<StorageUpdate>, ghost due: seq<Entry<Teleporter>>, ghost left: seq<(nat, Teleporter)>,
               ghost moved: seq<NetAction>, ghost stepped: seq<NetAction>)
      requires Valid() && network.x.g == g && NetInvariant.Inv(network.x, p, network.View())
      requires TimersUpTo(network.View(), now) && now <= U64_MAX
      requires forall i :: 0 <= i < |departures| ==> CanPass(departures[i], true, now, p)
      requires forall i :: 0 <= i < |inbox| ==> CanTake(inbox[i], now, p)
      modifies network.repr, teleport.queue
      ensures var acts := TickActs(departures, moved, stepped, inbox, now);
              && network.View() == Run(network.x, old(network.View()), acts) && Legal(network.x, old(network.View()), acts)
              && exits == RunExits(network.x, old(network.View()), acts)
              && ended == RunEnds(network.x, old(network.View()), acts)
              && updates == RunReleases(network.x, old(network.View()), acts)
              && TickOrdered(acts, now)
      ensures NetInvariant.Inv(network.x, p, network.View()) && TimersUpTo(network.View(), Next(now))
      ensures NetInvariant.OnNet(old(network.View())) + Ids(Drivers(departures)) + Ids(AllDrivers(inbox)) ==
              NetInvariant.OnNet(network.View()) + Ids(exits) + Ids(ended)
      ensures NodesDone(network.x, Run(network.x, old(network.View()), Partition.Sends(Drivers(departures), true, now)), moved, stepped, now)
      ensures forwarded == Away(g, teleport.part, Rides(departures)) + Away(g, teleport.part, AllRides(inbox))
      ensures Teleported() + multiset(arrived) + multiset(forwarded) ==
              old(Teleported()) + multiset(Rides(departures)) + multiset(AllRides(inbox))
      ensures TickDone(network.x, network.x.part, old(network.View()), old(Teleported()), network.View(), Teleported(),
                       departures, moved, stepped, inbox, arrived, now)
      ensures arrived == Values(due) && forall e :: e in due ==> CeilTicks(teleport.tps, e.endTime) <= now
      ensures forall e :: e in old(teleport.queue.q) && CeilTicks(teleport.tps, e.endTime) <= now ==> e in due
      ensures var start, part := TickNanos(teleport.tps, now), teleport.part;
              && DueTaken(teleport.tps, now, old(Timed(teleport.queue.q)) + Queued(g, part, departures, start), Timed(due), left)
              && Timed(teleport.queue.q) == left + AllQueued(g, part, inbox, start)
    {
      hide DueTaken, Timed, Queued, AllQueued, TickNanos;
      hide NetInvariant.Inv, Run, Legal, RunExits, RunEnds, RunReleases, Partition.SteppedExactly, Settled, TimersUpTo;
      hide Partition.SimNetworkPartition.View, Partition.SimNetworkPartition.Valid, Partition.SimNetworkPartition.Apart;
      hide TickOrdered, CanPass, CanTake, Teleported, Rides, AllRides, Away, TakingAll, NetInvariant.OnNet, Ids, NodesDone, CeilTicks;
      network.ValidIsApart();
      ghost var x, start := network.x, network.View();
      ghost var begun, taken;
      forwarded, begun := PassToEngines(departures, true, now, g, p);
      SendsKeepTimers(x, start, Drivers(departures), true, now, now);
      ghost var queued := Teleported();
      arrived, due := Arrive(now);
      ghost var staying := Teleported();
      left := Timed(teleport.queue.q);
      ghost var net1 := network.View();
      ghost var mid, order, draws;
      moved, mid, order, draws := network.MoveNodes(now, p);
      ghost var net2 := network.View();
      exits, ended, updates, stepped := network.MoveLinks(now, p);
      ghost var net3 := network.View();
      NodesAreDone(x, net1, net2, net3, moved, stepped, now);
      var more;
      more, taken := TakeIn(inbox, now, g, p);
      ArriveInTime(old(Teleported()), queued, staying, arrived, forwarded, Rides(departures));
      TeleBalance(old(Teleported()), queued, staying, Teleported(), arrived, forwarded, more, multiset(Rides(departures)), multiset(AllRides(inbox)));
      forwarded := forwarded + more;
      TakingKinds(inbox, now);
      TakenKeepTimers(x, net3, taken, Next(now));
      InFour(x, start, begun, moved, stepped, taken);
      OrderInFour(begun, moved, stepped, taken, now);
      SoundDepartures(departures, now, p);
      SoundInbox(inbox, now, p);
      TickAccounted(x, p, start, departures, moved, stepped, inbox, now);
    }

    /** Whatever the system has in flight for this process, the process can take. */
    lemma {:induction false} InboxCanBeTaken(w: World, p: real, s: Sys, m: SyncMessage, now: Tick)
      requires Valid() && network.x == Ctx(w, network.x.part) && network.x.part in s.parts
      requires Ok(w, p, s) && network.View() == s.parts[network.x.part].net
      requires forall i :: 0 <= i < |m.updates| ==> BoundHere(w, p, Update(m.updates[i]))
      requires forall i :: 0 <= i < |m.riders| && m.riders[i].Drive? ==> BoundHere(w, p, Veh(m.riders[i].v))
      requires forall i :: 0 <= i < |m.riders| && m.riders[i].Ride? ==>
                 BoundHere(w, p, Tele(m.riders[i].t)) && TickNanos(teleport.tps, now) + m.riders[i].travelTime <= U64_MAX
      ensures CanTake(m, now, p)
    {
      hide Ok, Destination, NetInvariant.Connected, NetInvariant.Sound, Partition.SimNetworkPartition.View, Partition.SimNetworkPartition.Valid;
      hide Partition.SimNetworkPartition.Apart;
      network.ValidIsApart();
      forall i | 0 <= i < |m.updates|
        ensures m.updates[i].link in network.links && network.links[m.updates[i].link].OutSim?
      {
        PacketDeliverable(w, p, s, Update(m.updates[i]), now);
        network.HasLink(m.updates[i].link);
        network.KindOf(m.updates[i].link);
      }
      forall i | 0 <= i < |m.riders| && m.riders[i].Drive?
        ensures CanPass(m.riders[i], false, now, p)
      {
        PacketDeliverable(w, p, s, Veh(m.riders[i].v), now);
        network.HasLink(m.riders[i].v.route[m.riders[i].v.pos]);
      }
    }

    ghost predicate BoundHere(w: World, p: real, k: Packet)
    {
      PacketOk(w, p, k) && Destination(w.g, k) == Some(network.x.part)
    }

    /** A vehicle whose route begins on a link that this partition owns can depart here. */
    lemma {:induction false} DepartureCanBegin(w: World, p: real, s: Sys, v: Vehicle, now: Tick)
      requires Valid() && network.x == Ctx(w, network.x.part) && network.x.part in s.parts
      requires Ok(w, p, s) && network.View() == s.parts[network.x.part].net
      requires v.pos < |v.route| && NetInvariant.Placed(w.g, v.route[v.pos], v) && 0.0 < v.pce <= p
      requires w.g.links[v.route[v.pos]].part == network.x.part
      ensures CanPass(Drive(v), true, now, p)
    {
      hide Ok, Partition.SimNetworkPartition.View, Partition.SimNetworkPartition.Valid, Partition.SimNetworkPartition.Apart;
      var l := v.route[v.pos];
      OwnedEnds(w, p, s, l);
      network.ValidIsApart();
      OwnLinkIsHere(w, p, s, network.x.part, l);
      network.HasLink(l);
      network.KindOf(l);
    }

    lemma {:induction false} OwnedEnds(w: World, p: real, s: Sys, l: LinkId)
      requires Ok(w, p, s) && l in w.g.links
      ensures EndsKnown(w.g, l) && ToPart(w.g, l) == w.g.links[l].part
    {
    }

    lemma {:induction false} SoundDepartures(rs: seq<Rider>, now: Tick, p: real)
      requires Valid() && forall i :: 0 <= i < |rs| ==> CanPass(rs[i], true, now, p)
      ensures forall a :: a in Partition.Sends(Drivers(rs), true, now) ==> NetInvariant.Sound(network.x, p, a)
    {
      hide NetInvariant.Placed, Partition.SimNetworkPartition.Valid;
      DriversAre(rs);
      forall a | a in Partition.Sends(Drivers(rs), true, now)
        ensures NetInvariant.Sound(network.x, p, a)
      {
        assert a.Begin? && a.v in Drivers(rs);
      }
    }

    lemma {:induction false} SoundInbox(inbox: seq<SyncMessage>, now: Tick, p: real)
      requires Valid() && forall i :: 0 <= i < |inbox| ==> CanTake(inbox[i], now, p)
      ensures forall a :: a in TakingAll(inbox, now) ==> NetInvariant.Sound(network.x, p, a)
    {
      hide Partition.SimNetworkPartition.Valid, CanTake, Taking;
      if inbox != [] {
        var n := |inbox| - 1;
        SoundInbox(inbox[..n], now, p);
        SoundMessage(inbox[n], now, p);
      }
    }

    lemma {:induction false} SoundMessage(m: SyncMessage, now: Tick, p: real)
      requires Valid() && CanTake(m, now, p)
      ensures forall a :: a in Taking(m, now) ==> NetInvariant.Sound(network.x, p, a)
    {
      hide NetInvariant.Placed, Partition.SimNetworkPartition.Valid;
      DriversAre(m.riders);
      forall a | a in Taking(m, now)
        ensures NetInvariant.Sound(network.x, p, a)
      {
        assert a in Partition.Credits(m.updates) || a in Partition.Sends(Drivers(m.riders), false, now);
        if a.Receive? {
          assert a.v in Drivers(m.riders);
        }
      }
    }
  }

  /** All that happens to the network in a tick. */
  ghost function TickActs(departures: seq<Rider>, moved: seq<NetAction>, stepped: seq<NetAction>, inbox: seq<SyncMessage>, now: Tick): (acts: seq<NetAction>)
  {
    Partition.Sends(Drivers(departures), true, now) + moved + stepped + TakingAll(inbox, now)
  }

  /**
   * What a tick does to the network and to the vehicles being teleported: those that depart here for
   * elsewhere are sent on before any arrives, and those that come from elsewhere are queued after.
   */
  ghost predicate TickDone(x: Context, q: Part, a: NetState, ta: multiset<Teleporter>, b: NetState, tb: multiset<Teleporter>,
                           departures: seq<Rider>, moved: seq<NetAction>, stepped: seq<NetAction>, inbox: seq<SyncMessage>,
                           arrived: seq<Teleporter>, now: Tick)
  {
    && Legal(x, a, TickActs(departures, moved, stepped, inbox, now)) && b == Run(x, a, TickActs(departures, moved, stepped, inbox, now))
    && (forall act :: act in moved ==> act.Look? || act.Rest? || act.Move?) && (forall act :: act in stepped ==> act.StepLink?)
    && multiset(arrived) + multiset(Away(x.g, q, Rides(departures))) <= ta + multiset(Rides(departures))
    && tb + multiset(arrived) + multiset(Away(x.g, q, Rides(departures)) + Away(x.g, q, AllRides(inbox))) ==
         ta + multiset(Rides(departures)) + multiset(AllRides(inbox))
  }

  lemma {:induction false} ArriveInTime(ta: multiset<Teleporter>, queued: multiset<Teleporter>, left: multiset<Teleporter>,
                                        arrived: seq<Teleporter>, away: seq<Teleporter>, rides: seq<Teleporter>)
    requires queued + multiset(away) == ta + multiset(rides) && queued == left + multiset(arrived)
    ensures multiset(arrived) + multiset(away) <= ta + multiset(rides)
  {
    assert multiset(arrived) <= queued;
  }

  /** After the work of the nodes every link is settled, and then exactly the active links have made their step. */
  ghost predicate NodesDone(x: Context, net: NetState, moved: seq<NetAction>, stepped: seq<NetAction>, now: Tick)
  {
    var net2 := Run(x, net, moved);
    && (forall l :: l in net2.links ==> EndsKnown(x.g, l) && Settled(net, net2, l, Beside(x, l), now))
    && Partition.SteppedExactly(net2, Run(x, net2, stepped), net2.activeLinks, now)
  }

  lemma {:induction false} NodesAreDone(x: Context, net1: NetState, net2: NetState, net3: NetState, moved: seq<NetAction>, stepped: seq<NetAction>, now: Tick)
    requires net2 == Run(x, net1, moved) && net3 == Run(x, net2, stepped)
    requires forall l :: l in net2.links ==> EndsKnown(x.g, l) && Settled(net1, net2, l, Beside(x, l), now)
    requires Partition.SteppedExactly(net2, net3, net2.activeLinks, now)
    ensures NodesDone(x, net1, moved, stepped, now)
  {
    hide Run, Settled, Partition.SteppedExactly;
  }

  lemma {:induction false} DriversAre(rs: seq<Rider>)
    ensures forall v :: v in Drivers(rs) ==> exists i :: 0 <= i < |rs| && rs[i] == Drive(v)
  {
    if rs != [] {
      DriversAre(rs[1..]);
      forall v | v in Drivers(rs)
        ensures exists i :: 0 <= i < |rs| && rs[i] == Drive(v)
      {
        if rs[0] != Drive(v) {
          assert v in Drivers(rs[1..]);
          var i :| 0 <= i < |rs[1..]| && rs[1..][i] == Drive(v);
          assert rs[i + 1] == Drive(v);
        }
      }
    }
  }

  lemma {:induction false} InEither(all: seq<Entry<Teleporter>>, rest: seq<Entry<Teleporter>>, due: seq<Entry<Teleporter>>)
    requires multiset(all) == multiset(rest) + multiset(due)
    ensures forall e :: e in all <==> e in rest || e in due
  {
    forall e
      ensures e in all <==> e in rest || e in due
    {
      assert e in multiset(all) <==> e in multiset(rest) + multiset(due);
    }
  }

  /** Of those in all, exactly those arrive whose tick has come; the others stay. */
  ghost predicate DueTaken(tps: nat, now: Tick, all: seq<(nat, Teleporter)>, due: seq<(nat, Teleporter)>, stay: seq<(nat, Teleporter)>)
  {
    && multiset(all) == multiset(due) + multiset(stay)
    && (forall e :: e in due ==> CeilTicks(tps, e.0) <= now) && forall e :: e in stay ==> CeilTicks(tps, e.0) > now
  }

  lemma {:induction false} DueAreTaken(tps: nat, now: Tick, all: seq<Entry<Teleporter>>, due: seq<Entry<Teleporter>>, stay: seq<Entry<Teleporter>>)
    requires multiset(all) == multiset(stay) + multiset(due)
    requires (forall e :: e in due ==> CeilTicks(tps, e.endTime) <= now) && forall e :: e in stay ==> CeilTicks(tps, e.endTime) > now
    ensures DueTaken(tps, now, Timed(all), Timed(due), Timed(stay))
  {
    hide CeilTicks, Timed;
    TimedBag(all, stay + due);
    TimedConcat(stay, due);
    TimedAt(due);
    TimedAt(stay);
    forall e | e in Timed(due)
      ensures CeilTicks(tps, e.0) <= now
    {
      var i :| 0 <= i < |due| && Timed(due)[i] == e;
      assert due[i] in due;
    }
    forall e | e in Timed(stay)
      ensures CeilTicks(tps, e.0) > now
    {
      var i :| 0 <= i < |stay| && Timed(stay)[i] == e;
      assert stay[i] in stay;
    }
  }

  lemma {:induction false} TimedAt(es: seq<Entry<Teleporter>>)
    ensures |Timed(es)| == |es| && forall i :: 0 <= i < |es| ==> Timed(es)[i] == (es[i].endTime, es[i].value)
  {
    if es != [] {
      TimedAt(es[..|es| - 1]);
    }
  }

  lemma {:induction false} TimedMore(es: seq<Entry<Teleporter>>, e: Entry<Teleporter>)
    ensures Timed(es + [e]) == Timed(es) + [(e.endTime, e.value)]
  {
    assert (es + [e])[..|es|] == es;
  }

  lemma {:induction false} TimedConcat(a: seq<Entry<Teleporter>>, b: seq<Entry<Teleporter>>)
    ensures Timed(a + b) == Timed(a) + Timed(b)
  {
    hide Timed;
    TimedAt(a);
    TimedAt(b);
    TimedAt(a + b);
  }

  /** The order in a queue makes no difference to who is in it. */
  lemma {:induction false} TimedBag(a: seq<Entry<Teleporter>>, b: seq<Entry<Teleporter>>)
    requires multiset(a) == multiset(b)
    ensures multiset(Timed(a)) == multiset(Timed(b))
  {
    hide Timed;
    if a == [] {
      assert |multiset(b)| == |b|;
    } else {
      assert a[0] in multiset(b);
      var k :| 0 <= k < |b| && b[k] == a[0];
      assert a == [a[0]] + a[1..];
      RemovedOne(b, k);
      CancelOne(multiset(a[1..]), multiset(RemoveAt(b, k)), a[0]);
      TimedBag(a[1..], RemoveAt(b, k));
      TimedRemoved(a, 0);
      TimedRemoved(b, k);
      assert RemoveAt(a, 0) == a[1..];
    }
  }

  lemma {:induction false} TimedRemoved(es: seq<Entry<Teleporter>>, k: nat)
    requires k < |es|
    ensures multiset(Timed(es)) == multiset(Timed(RemoveAt(es, k))) + multiset{(es[k].endTime, es[k].value)}
  {
    hide Timed;
    TimedAt(es);
    TimedAt(RemoveAt(es, k));
    var vs := Timed(es);
    assert vs == vs[..k] + ([vs[k]] + vs[k + 1..]);
    assert Timed(RemoveAt(es, k)) == vs[..k] + vs[k + 1..];
  }

  lemma {:induction false} InTurn<T>(a: seq<T>, b: seq<T>, c: seq<T>)
    ensures a + b + c == a + (b + c)
  {
  }

  lemma {:induction false} NoneQueued(g: RoadNet, part: Part, start: nat)
    ensures Queued(g, part, [], start) == []
  {
  }

  lemma {:induction false} QueueGrew(before: seq<Entry<Teleporter>>, after: seq<Entry<Teleporter>>, t: Teleporter)
    requires before <= after && (Values(after) == Values(before) || Values(after) == Values(before) + [t])
    ensures Timed(after) == Timed(before) + if |after| == |before| then [] else [(after[|after| - 1].endTime, t)]
  {
    hide Timed;
    if |after| == |before| {
      assert after == before;
    } else {
      assert |Values(after)| == |Values(before)| + 1;
      assert after == before + [after[|before|]];
      TimedMore(before, after[|before|]);
    }
  }

  lemma {:induction false} OneQueued(g: RoadNet, part: Part, r: Rider, start: nat)
    ensures Queued(g, part, [r], start) ==
            if r.Ride? && r.t.end in g.links && g.links[r.t.end].part == part then [(start + r.travelTime, r.t)] else []
  {
    assert [r][..0] == [];
    assert Queued(g, part, [], start) == [];
  }

  lemma {:induction false} QueuedMore(g: RoadNet, part: Part, rs: seq<Rider>, i: nat, start: nat)
    requires i < |rs|
    ensures Queued(g, part, rs[..i + 1], start) == Queued(g, part, rs[..i], start) + Queued(g, part, [rs[i]], start)
  {
    assert rs[..i + 1][..i] == rs[..i];
    OneQueued(g, part, rs[i], start);
  }

  lemma {:induction false} AllQueuedMore(g: RoadNet, part: Part, ms: seq<SyncMessage>, i: nat, start: nat)
    requires i < |ms|
    ensures AllQueued(g, part, ms[..i + 1], start) == AllQueued(g, part, ms[..i], start) + Queued(g, part, ms[i].riders, start)
  {
    hide Queued;
    assert ms[..i + 1][..i] == ms[..i];
  }

  lemma {:induction false} NobodyAway(g: RoadNet, part: Part)
    ensures Away(g, part, []) == []
  {
  }

  lemma {:induction false} OneAway(g: RoadNet, part: Part, r: Rider)
    ensures Away(g, part, []) == []
    ensures r.Ride? ==> Away(g, part, [r.t]) == if r.t.end in g.links && g.links[r.t.end].part == part then [] else [r.t]
  {
    if r.Ride? {
      assert [r.t][..0] == [];
    }
  }

  lemma {:induction false} AwayConcat(g: RoadNet, part: Part, a: seq<Teleporter>, b: seq<Teleporter>)
    ensures Away(g, part, a + b) == Away(g, part, a) + Away(g, part, b)
  {
    if b == [] {
      assert a + b == a;
    } else {
      assert (a + b)[..|a + b| - 1] == a + b[..|b| - 1];
      AwayConcat(g, part, a, b[..|b| - 1]);
    }
  }

  lemma {:induction false} TakingKinds(ms: seq<SyncMessage>, now: Tick)
    ensures forall a :: a in TakingAll(ms, now) ==> a.Credit? || (a.Receive? && a.now == now)
  {
    if ms != [] {
      TakingKinds(ms[..|ms| - 1], now);
    }
  }

  lemma {:induction false} LastArrives(acts: seq<NetAction>)
    requires acts != []
    ensures NetInvariant.ArrivalsOf(acts) == NetInvariant.ArrivalsOf(acts[..|acts| - 1]) + NetInvariant.Arrivals(acts[|acts| - 1])
  {
  }

  lemma {:induction false} SendsArrive(vs: seq<Vehicle>, routeBegin: bool, now: Tick)
    ensures NetInvariant.ArrivalsOf(Partition.Sends(vs, routeBegin, now)) == Ids(vs)
  {
    hide Ids, NetInvariant.ArrivalsOf;
    if vs == [] {
      NetInvariant.NoIds();
      NetInvariant.NoArrivals(Partition.Sends(vs, routeBegin, now));
    } else {
      var n := |vs| - 1;
      SendsArrive(vs[..n], routeBegin, now);
      var acts := Partition.Sends(vs, routeBegin, now);
      assert acts[..n] == Partition.Sends(vs[..n], routeBegin, now);
      LastArrives(acts);
      assert vs == vs[..n] + [vs[n]];
      NetInvariant.IdsSnoc(vs[..n], vs[n]);
    }
  }

  lemma {:induction false} TakingArrives(ms: seq<SyncMessage>, now: Tick)
    ensures NetInvariant.ArrivalsOf(TakingAll(ms, now)) == Ids(AllDrivers(ms))
  {
    if ms != [] {
      hide NetInvariant.ArrivalsOf, Ids;
      var front, m := ms[..|ms| - 1], ms[|ms| - 1];
      TakingArrives(front, now);
      SendsArrive(Drivers(m.riders), false, now);
      NetInvariant.NoArrivals(Partition.Credits(m.updates));
      NetInvariant.ArrivalsConcat(Partition.Credits(m.updates), Partition.Sends(Drivers(m.riders), false, now));
      NetInvariant.ArrivalsConcat(TakingAll(front, now), Taking(m, now));
      IdsConcat(AllDrivers(front), Drivers(m.riders));
    } else {
      NetInvariant.NoIds();
      NetInvariant.NoArrivals([]);
    }
  }

  /** Who was on the network, who departed and who came is on the network, has left it, or has ended the leg. */
  lemma {:induction false} TickAccounted(x: Context, p: real, net: NetState, departures: seq<Rider>, moved: seq<NetAction>,
                                         stepped: seq<NetAction>, inbox: seq<SyncMessage>, now: Tick)
    requires NetInvariant.Inv(x, p, net) && Legal(x, net, TickActs(departures, moved, stepped, inbox, now))
    requires forall a :: a in Partition.Sends(Drivers(departures), true, now) ==> NetInvariant.Sound(x, p, a)
    requires forall a :: a in TakingAll(inbox, now) ==> NetInvariant.Sound(x, p, a)
    requires forall a :: a in moved ==> a.Look? || a.Rest? || a.Move?
    requires forall a :: a in stepped ==> a.StepLink?
    ensures var acts := TickActs(departures, moved, stepped, inbox, now);
            NetInvariant.OnNet(net) + Ids(Drivers(departures)) + Ids(AllDrivers(inbox)) ==
            NetInvariant.OnNet(Run(x, net, acts)) + Ids(RunExits(x, net, acts)) + Ids(RunEnds(x, net, acts))
  {
    hide NetInvariant.Inv, NetInvariant.Sound, Run, Legal, RunExits, RunEnds, NetInvariant.OnNet, Ids, TickActs;
    TickSound(x, p, departures, moved, stepped, inbox, now);
    NetInvariant.RunAccounted(x, p, net, TickActs(departures, moved, stepped, inbox, now));
    TickArrivals(departures, moved, stepped, inbox, now);
    Reassociate(NetInvariant.OnNet(net), Ids(Drivers(departures)), Ids(AllDrivers(inbox)));
  }

  lemma {:induction false} Reassociate(a: multiset<nat>, b: multiset<nat>, c: multiset<nat>)
    ensures a + b + c == a + (b + c)
  {
  }

  lemma {:induction false} TickSound(x: Context, p: real, departures: seq<Rider>, moved: seq<NetAction>,
                                     stepped: seq<NetAction>, inbox: seq<SyncMessage>, now: Tick)
    requires forall a :: a in Partition.Sends(Drivers(departures), true, now) ==> NetInvariant.Sound(x, p, a)
    requires forall a :: a in TakingAll(inbox, now) ==> NetInvariant.Sound(x, p, a)
    requires forall a :: a in moved ==> a.Look? || a.Rest? || a.Move?
    requires forall a :: a in stepped ==> a.StepLink?
    ensures forall a :: a in TickActs(departures, moved, stepped, inbox, now) ==> NetInvariant.Sound(x, p, a)
  {
    hide TakingAll, NetInvariant.Placed;
  }

  lemma {:induction false} TickArrivals(departures: seq<Rider>, moved: seq<NetAction>, stepped: seq<NetAction>, inbox: seq<SyncMessage>, now: Tick)
    requires forall a :: a in moved ==> a.Look? || a.Rest? || a.Move?
    requires forall a :: a in stepped ==> a.StepLink?
    ensures NetInvariant.ArrivalsOf(TickActs(departures, moved, stepped, inbox, now)) == Ids(Drivers(departures)) + Ids(AllDrivers(inbox))
  {
    hide NetInvariant.ArrivalsOf, Ids, TakingAll;
    var begun, taken := Partition.Sends(Drivers(departures), true, now), TakingAll(inbox, now);
    NetInvariant.ArrivalsConcat(begun + moved + stepped, taken);
    NetInvariant.ArrivalsConcat(begun + moved, stepped);
    NetInvariant.ArrivalsConcat(begun, moved);
    NetInvariant.NoArrivals(moved);
    NetInvariant.NoArrivals(stepped);
    SendsArrive(Drivers(departures), true, now);
    TakingArrives(inbox, now);
  }

  lemma {:induction false} SendsConcat(a: seq<Vehicle>, b: seq<Vehicle>, routeBegin: bool, now: Tick)
    ensures Partition.Sends(a + b, routeBegin, now) == Partition.Sends(a, routeBegin, now) + Partition.Sends(b, routeBegin, now)
  {
  }

  lemma {:induction false} MoreRides(before: multiset<Teleporter>, after: multiset<Teleporter>, forwarded: seq<Teleporter>, more: seq<Teleporter>,
                                     was: multiset<Teleporter>, rides: seq<Teleporter>, newer: seq<Teleporter>)
    requires before + multiset(forwarded) == was + multiset(rides) && after + multiset(more) == before + multiset(newer)
    ensures after + multiset(forwarded + more) == was + multiset(rides + newer)
  {
    assert after + multiset(forwarded + more) == after + multiset(more) + multiset(forwarded);
    assert was + multiset(rides + newer) == before + multiset(forwarded) + multiset(newer);
  }

  lemma {:induction false} TeleBalance(a: multiset<Teleporter>, b: multiset<Teleporter>, c: multiset<Teleporter>, d: multiset<Teleporter>,
                                       arrived: seq<Teleporter>, forwarded: seq<Teleporter>, more: seq<Teleporter>,
                                       departed: multiset<Teleporter>, taken: multiset<Teleporter>)
    requires b + multiset(forwarded) == a + departed && b == c + multiset(arrived) && d + multiset(more) == c + taken
    ensures d + multiset(arrived) + multiset(forwarded + more) == a + departed + taken
  {
    assert a + departed + taken == c + multiset(arrived) + multiset(forwarded) + taken;
    assert c + taken == d + multiset(more);
    assert c + multiset(arrived) + multiset(forwarded) + taken == (c + taken) + multiset(arrived) + multiset(forwarded);
  }

  lemma {:induction false} DriversSnoc(rs: seq<Rider>, r: Rider)
    ensures Drivers(rs + [r]) == Drivers(rs) + (if r.Drive? then [r.v] else [])
    ensures Rides(rs + [r]) == Rides(rs) + (if r.Ride? then [r.t] else [])
  {
    hide Drivers, Rides;
    if rs == [] {
      assert [] + [r] == [r];
      FirstRider([r]);
      NoRiders();
    } else {
      assert (rs + [r])[1..] == rs[1..] + [r];
      FirstRider(rs);
      FirstRider(rs + [r]);
      DriversSnoc(rs[1..], r);
    }
  }

  lemma {:induction false} FirstRider(rs: seq<Rider>)
    requires rs != []
    ensures Drivers(rs) == (if rs[0].Drive? then [rs[0].v] else []) + Drivers(rs[1..])
    ensures Rides(rs) == (if rs[0].Ride? then [rs[0].t] else []) + Rides(rs[1..])
  {
  }

  lemma {:induction false} NoRiders()
    ensures Drivers([]) == [] && Rides([]) == []
  {
  }

  /** Departing vehicles, vehicles from elsewhere and released storage do not touch timers. */
  lemma {:induction false} TakenKeepTimers(x: Context, net: NetState, acts: seq<NetAction>, t: Tick)
    requires TimersUpTo(net, t) && forall a :: a in acts ==> a.Begin? || a.Receive? || a.Credit?
    ensures TimersUpTo(Run(x, net, acts), t)
  {
    if acts != [] {
      var front, a := acts[..|acts| - 1], acts[|acts| - 1];
      assert a in acts && forall b :: b in front ==> b in acts;
      TakenKeepTimers(x, net, front, t);
      hide TravelTicks, SatAdd, Run;
      var mid := Run(x, net, front);
      assert TimersUpTo(Apply(x, mid, a), t);
    }
  }

  lemma {:induction false} SendsKeepTimers(x: Context, net: NetState, vs: seq<Vehicle>, routeBegin: bool, now: Tick, t: Tick)
    requires TimersUpTo(net, t)
    ensures TimersUpTo(Run(x, net, Partition.Sends(vs, routeBegin, now)), t)
  {
    TakenKeepTimers(x, net, Partition.Sends(vs, routeBegin, now), t);
  }

  /** Four runs in a row, of which only the third lets anything out. */
  lemma {:induction false} InFour(x: Context, net: NetState, a: seq<NetAction>, b: seq<NetAction>, c: seq<NetAction>, d: seq<NetAction>)
    requires forall act :: act in a || act in b || act in d ==> !act.StepLink?
    ensures var net1 := Run(x, net, a);
            var net2 := Run(x, net1, b);
            var net3 := Run(x, net2, c);
            && Run(x, net, a + b + c + d) == Run(x, net3, d)
            && (Legal(x, net, a) && Legal(x, net1, b) && Legal(x, net2, c) && Legal(x, net3, d) ==> Legal(x, net, a + b + c + d))
            && RunExits(x, net, a + b + c + d) == RunExits(x, net2, c)
            && RunEnds(x, net, a + b + c + d) == RunEnds(x, net2, c)
            && RunReleases(x, net, a + b + c + d) == RunReleases(x, net2, c)
  {
    hide Run, Legal, RunExits, RunEnds, RunReleases;
    RunConcat(x, net, a, b);
    RunConcat(x, net, a + b, c);
    RunConcat(x, net, a + b + c, d);
    RunConcatOut(x, net, a, b);
    RunConcatOut(x, net, a + b, c);
    RunConcatOut(x, net, a + b + c, d);
    NothingOut(x, net, a);
    NothingOut(x, Run(x, net, a), b);
    NothingOut(x, Run(x, net, a + b + c), d);
  }

  lemma {:induction false} OrderInFour(a: seq<NetAction>, b: seq<NetAction>, c: seq<NetAction>, d: seq<NetAction>, now: Tick)
    requires forall act :: act in a || act in d ==> act.Begin? || act.Receive? || act.Credit?
    requires forall act :: act in b ==> act.Look? || act.Rest? || (act.Move? && act.now == now)
    requires forall act :: act in c ==> act.StepLink? && act.now == now
    ensures TickOrdered(a + b + c + d, now)
  {
    var all := a + b + c + d;
    var k := |a| + |b|;
    forall i | 0 <= i < |all|
      ensures i < k ==> !all[i].StepLink?
      ensures i >= k ==> !all[i].Move?
      ensures all[i].Move? || all[i].StepLink? ==> all[i].now == now
    {
      if i < |a| {
        assert all[i] in a;
      } else if i < k {
        assert all[i] in b;
      } else if i < k + |c| {
        assert all[i] in c;
      } else {
        assert all[i] in d;
      }
    }
  }

  // ------------------------------------------------------------------ ticks in a row

  ghost function Flatten(ticks: seq<seq<NetAction>>): (r: seq<NetAction>)
  {
    if ticks == [] then [] else Flatten(ticks[..|ticks| - 1]) + ticks[|ticks| - 1]
  }

  /** All actions of the first ticks are of those ticks. */
  lemma {:induction false} FlattenTimes(ticks: seq<seq<NetAction>>, start: Tick)
    requires forall i :: 0 <= i < |ticks| ==> TickOrdered(ticks[i], start + i)
    ensures forall a :: a in Flatten(ticks) && (a.Move? || a.StepLink?) ==> a.now < start + |ticks|
  {
    if ticks != [] {
      FlattenTimes(ticks[..|ticks| - 1], start);
    }
  }

  /**
   * Whatever happens in ticks that follow each other, taken together the nodes always work before
   * the links do. This is what the minimum travel time on every link rests on.
   */
  lemma {:induction false} TicksInOrder(ticks: seq<seq<NetAction>>, start: Tick)
    requires forall i :: 0 <= i < |ticks| ==> TickOrdered(ticks[i], start + i)
    ensures Projection.MovesBeforeSteps(Flatten(ticks))
  {
    if ticks != [] {
      var n := |ticks| - 1;
      TicksInOrder(ticks[..n], start);
      FlattenTimes(ticks[..n], start);
      var a, b := Flatten(ticks[..n]), ticks[n];
      var all := a + b;
      forall i, j | 0 <= i < j < |all| && all[i].StepLink? && all[j].Move?
        ensures all[i].now < all[j].now
      {
        if j >= |a| {
          assert all[j] == b[j - |a|];
          if i < |a| {
            assert all[i] in a;
          } else {
            assert false;
          }
        }
      }
    }
  }
}
