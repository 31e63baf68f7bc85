/** The three kinds of links of a partition behind one set of operations. */
module SimLinks {
  import opened Basics
  import opened FlowCap
  import opened Storage
  import opened StuckTimers
  import opened LinkSpec
  import opened RoadNetwork
  import opened Links
  import opened NetSpec

  /**
   * A link object. The operations that make no sense for the upstream half of a split link, where
   * the source panics, require that the link is not one.
   */
  datatype SimLink =
    | LocalSim(ll: LocalLink)
    | InSim(fromPart: Part, ll: LocalLink)
    | OutSim(ol: SplitOutLink)
  {
    ghost function Footprint(): (r: set<object>)
    {
      if OutSim? then ol.Footprint() else ll.Footprint()
    }

    function State(): (r: SimLinkState)
      reads Footprint()
      ensures r.Out? == OutSim? && r.In? == InSim?
    {
      match this
      case LocalSim(ll) => Local(ll.State())
      case InSim(fromPart, ll) => In(fromPart, ll.State())
      case OutSim(ol) => Out(ol.toPart, ol.State())
    }

    method PopVeh() returns (veh: Option<Vehicle>)
      requires !OutSim?
      modifies Footprint()
      ensures !old(State()).Out?
      ensures veh == if old(State()).s.buffer == [] then None else Some(old(State()).s.buffer[0])
      ensures State() == if old(State()).s.buffer == [] then old(State()) else old(State()).(s := Pop(old(State()).s))
    {
      hide Pop;
      veh := ll.PopVeh();
    }

    method PushVeh(v: Vehicle, position: LinkPosition, now: Tick)
      requires State().Out? ==> position.QStart?
      modifies Footprint()
      ensures State() == if position.QStart? then Push(old(State()), v, now)
                         else old(State()).(s := PushWaiting(old(State()).s, v))
    {
      hide PushQueue, PushWaiting;
      match this {
        case LocalSim(ll) => ll.PushVeh(v, now, position);
        case InSim(_, ll) => ll.PushVeh(v, now, position);
        case OutSim(ol) => ol.PushVeh(v, position);
      }
    }

    method OffersVeh(now: Tick) returns (veh: Option<Vehicle>)
      requires !OutSim?
      modifies Footprint()
      ensures veh == if NetSpec.OffersVeh(old(State())) then Some(old(State()).s.buffer[0]) else None
      ensures State() == old(State()).(s := Offer(old(State()).s, now))
    {
      veh := ll.OffersVeh(now);
    }

    method IsVehStuck(now: Tick) returns (stuck: bool)
      requires !OutSim? && (State().s.timer.Some? ==> State().s.timer.value <= now)
      ensures stuck == Stuck(State().s.timer, State().s.attr.threshold, now)
      ensures stuck <==> State().s.timer.Some? && State().s.timer.value + State().s.attr.threshold <= now
    {
      stuck := ll.stuckTimer.IsStuck(now);
    }

    method IsAvailable() returns (available: bool)
      requires !InSim?
      ensures available == Available(StorageOf(State()))
      ensures available <==> StorageOf(State()).used < StorageOf(State()).max
    {
      match this {
        case LocalSim(ll) => available := Available(ll.storageCap.State());
        case OutSim(ol) => available := Available(ol.storageCap.State());
      }
    }

    method IsActive() returns (active: bool)
      requires !OutSim?
      ensures active == Active(State().s)
    {
      active := ll.q != [] || ll.waitingList != [] || ll.buffer != [];
    }

    method CapacityPerTick() returns (cap: real)
      requires !OutSim?
      ensures cap == State().s.flow.perTick
    {
      cap := ll.flowCap.perTick;
    }

    method DoSimStep(now: Tick) returns (ended: seq<Vehicle>)
      requires !OutSim? && State().s.attr.tps > 0
      modifies Footprint()
      ensures ended == SimStep(old(State()).s, now).ended
      ensures State() == old(State()).(s := SimStep(old(State()).s, now).s)
    {
      hide SimStep;
      ended := ll.DoSimStep(now);
    }

    method TakeVeh() returns (vehicles: seq<Vehicle>)
      requires State().Out?
      modifies Footprint()
      ensures vehicles == old(State()).o.q && State() == old(State()).(o := old(State()).o.(q := []))
    {
      vehicles := ol.TakeVeh();
    }

    method ApplyStorageCapUpdate(released: real)
      requires State().Out?
      modifies Footprint()
      ensures State() == old(State()).(o := old(State()).o.(storage :=
                old(State()).o.storage.(used := old(State()).o.storage.used - released)))
    {
      ol.ApplyStorageCapUpdate(released);
    }

    method Drain() returns (vehicles: seq<Vehicle>)
      modifies Footprint()
      ensures vehicles == Contents(old(State())) && Contents(State()) == []
    {
      match this {
        case LocalSim(ll) => vehicles := ll.Drain();
        case InSim(_, ll) => vehicles := ll.Drain();
        case OutSim(ol) => vehicles := ol.TakeVeh();
      }
    }
  }
}
