/** The link objects: what the simulation mutates, proved against the functions of LinkSpec. */
module Links {
  import opened Basics
  import opened FlowCap
  import opened Storage
  import opened StuckTimers
  import opened LinkSpec
  import opened RoadNetwork

  datatype LinkPosition = QStart | Waiting

  datatype Config = Config(tps: nat, sampleSize: real, cellSize: real, thresholdSeconds: nat)

  ghost predicate ValidConfig(c: Config)
  {
    c.tps > 0 && c.cellSize > 0.0 && c.sampleSize >= 0.0
  }

  function StorageMax(l: NetLink, c: Config): (r: real)
    requires ValidConfig(c)
  {
    MaxStorage(l.length, l.lanes, l.capacity, c.sampleSize, c.cellSize)
  }

  /** The length of a tick in nanoseconds, rounded to the nearest whole one, ties to the even one. */
  function TickLength(tps: nat): (r: nat)
    requires tps > 0
  {
    var q, rest := NANOS / tps, NANOS % tps;
    if 2 * rest < tps || (2 * rest == tps && q % 2 == 0) then q else q + 1
  }

  /** The state of a link on which nothing has happened yet. */
  function FreshLink(l: NetLink, c: Config): (s: LinkState)
    requires ValidConfig(c)
  {
    var perSecond := l.capacity * c.sampleSize / 3600.0;
    var perTick := perSecond * Seconds(TickLength(c.tps));
    LinkState(
      LinkAttr(l.length, l.freeSpeed, c.tps, c.thresholdSeconds * c.tps),
      [], [], [],
      StorageState(StorageMax(l, c), 0.0),
      FlowState(0, perTick, perSecond, perTick),
      None)
  }

  class LocalLink {
    const id: LinkId
    const from: NodeId
    const to: NodeId
    const length: real
    const freeSpeed: real
    const tps: nat
    var q: seq<QEntry>
    var buffer: seq<Vehicle>
    var waitingList: seq<Vehicle>
    const storageCap: StorageCap
    const flowCap: Flowcap
    const stuckTimer: StuckTimer

    ghost function Footprint(): (r: set<object>)
    {
      {this, storageCap, flowCap, stuckTimer}
    }

    function State(): (s: LinkState)
      reads Footprint()
    {
      LinkState(LinkAttr(length, freeSpeed, tps, stuckTimer.threshold), q, buffer, waitingList,
                storageCap.State(), flowCap.State(), stuckTimer.started)
    }

    constructor (id: LinkId, l: NetLink, c: Config)
      requires ValidConfig(c)
      ensures this.id == id && from == l.from && to == l.to
      ensures State() == FreshLink(l, c)
      ensures fresh(Footprint())
    {
      this.id := id;
      from := l.from;
      to := l.to;
      length := l.length;
      freeSpeed := l.freeSpeed;
      tps := c.tps;
      q, buffer, waitingList := [], [], [];
      storageCap := new StorageCap(l.length, l.lanes, l.capacity, c.sampleSize, c.cellSize);
      flowCap := new Flowcap(l.capacity, c.sampleSize, l.capacity * c.sampleSize / 3600.0 * Seconds(TickLength(c.tps)));
      stuckTimer := new StuckTimer(c.thresholdSeconds * c.tps);
    }

    method PushVeh(v: Vehicle, now: Tick, position: LinkPosition)
      modifies Footprint()
      ensures State() == if position.QStart? then PushQueue(old(State()), v, now) else PushWaiting(old(State()), v)
    {
      match position
      case QStart =>
        var exit := SatAdd(now, TravelTicks(LinkAttr(length, freeSpeed, tps, stuckTimer.threshold), v));
        storageCap.Consume(v.pce);
        q := q + [QEntry(v, exit)];
      case Waiting =>
        waitingList := waitingList + [v];
    }

    method HasFlowCapacityLeft() returns (left: bool)
      ensures left == FlowLeft(State())
    {
      left := flowCap.remaining - Pce(buffer) > 0.0;
    }

    method AddWaitingToBuffer() returns (released: seq<Vehicle>)
      modifies Footprint()
      ensures Filled(State(), released) == FillFromWaiting(old(State()))
    {
      hide FillFromWaiting, FlowLeft, Pce;
      released := [];
      ghost var goal := FillFromWaiting(State());
      NothingEnded(goal);
      while waitingList != []
        invariant goal == Before(released, FillFromWaiting(State()))
        decreases |waitingList|
      {
        var v := waitingList[0];
        WaitingRound(State(), released);
        if v.WantsToArrive() {
          waitingList := waitingList[1..];
          released := released + [v];
          continue;
        }
        var left := HasFlowCapacityLeft();
        if left {
          waitingList := waitingList[1..];
          buffer := buffer + [v];
        } else {
          break;
        }
      }
      WaitingDone(State(), released);
    }

    /** Takes the head of the queue, with its storage. */
    method PopFromQueue() returns (v: Vehicle)
      requires q != []
      modifies Footprint()
      ensures v == old(q)[0].veh && State() == PopQueue(old(State()))
    {
      v := q[0].veh;
      q := q[1..];
      storageCap.Release(v.pce);
    }

    method AddQueueToBuffer(now: Tick) returns (released: seq<Vehicle>)
      modifies Footprint()
      ensures Filled(State(), released) == FillFromQueue(old(State()), now)
    {
      hide FillFromQueue, FlowLeft, Pce;
      released := [];
      ghost var goal := FillFromQueue(State(), now);
      NothingEnded(goal);
      while q != []
        invariant goal == Before(released, FillFromQueue(State(), now))
        decreases |q|
      {
        var entry := q[0];
        QueueRound(State(), released, now);
        if entry.exit > now {
          break;
        }
        if entry.veh.WantsToArrive() {
          var v := PopFromQueue();
          released := released + [v];
          continue;
        }
        var left := HasFlowCapacityLeft();
        if left {
          var v := PopFromQueue();
          buffer := buffer + [v];
        } else {
          break;
        }
      }
      QueueDone(State(), released, now);
    }

    method DoSimStep(now: Tick) returns (ended: seq<Vehicle>)
      requires tps > 0
      modifies Footprint()
      ensures Filled(State(), ended) == SimStep(old(State()), now)
    {
      flowCap.UpdateCapacity(TickNanos(tps, now));
      var first := AddWaitingToBuffer();
      var second := AddQueueToBuffer(now);
      ended := first + second;
    }

    method OffersVeh(now: Tick) returns (veh: Option<Vehicle>)
      modifies Footprint()
      ensures State() == Offer(old(State()), now)
      ensures veh == if Offers(old(State())) then Some(old(buffer)[0]) else None
    {
      if buffer != [] && HasCapacityLeft(flowCap.State()) {
        stuckTimer.StartAt(now);
        veh := Some(buffer[0]);
      } else {
        veh := None;
      }
    }

    method PopVeh() returns (veh: Option<Vehicle>)
      modifies Footprint()
      ensures old(buffer) == [] ==> veh == None && State() == old(State())
      ensures old(buffer) != [] ==> veh == Some(old(buffer)[0]) && State() == Pop(old(State()))
    {
      if buffer == [] {
        veh := None;
      } else {
        var head := buffer[0];
        buffer := buffer[1..];
        flowCap.ConsumeCapacity(head.pce);
        stuckTimer.Reset();
        veh := Some(head);
      }
    }

    /** Empties the link at the end of a run. */
    method Drain() returns (vehicles: seq<Vehicle>)
      modifies this
      ensures vehicles == OnLink(old(State()))
      ensures OnLink(State()) == []
    {
      vehicles := Vehs(q) + buffer + waitingList;
      q, buffer, waitingList := [], [], [];
    }
  }

  /** What ended in earlier rounds of a filling loop comes before what ends in the rest. */
  function Before(ended: seq<Vehicle>, f: Filled): (r: Filled)
  {
    Filled(f.s, ended + f.ended)
  }

  lemma {:induction false} NothingEnded(f: Filled)
    ensures Before([], f) == f
  {
  }

  lemma {:induction false} WaitingRound(s: LinkState, ended: seq<Vehicle>)
    requires s.waiting != []
    ensures var v, f := s.waiting[0], Before(ended, FillFromWaiting(s));
            && (v.WantsToArrive() ==> f == Before(ended + [v], FillFromWaiting(s.(waiting := s.waiting[1..]))))
            && (!v.WantsToArrive() && FlowLeft(s) ==>
                  f == Before(ended, FillFromWaiting(s.(waiting := s.waiting[1..], buffer := s.buffer + [v]))))
            && (!v.WantsToArrive() && !FlowLeft(s) ==> f == Filled(s, ended))
  {
    var rest := FillFromWaiting(s.(waiting := s.waiting[1..]));
    assert ended + ([s.waiting[0]] + rest.ended) == ended + [s.waiting[0]] + rest.ended;
  }

  lemma {:induction false} WaitingDone(s: LinkState, ended: seq<Vehicle>)
    ensures s.waiting == [] || (!s.waiting[0].WantsToArrive() && !FlowLeft(s)) ==>
              Before(ended, FillFromWaiting(s)) == Filled(s, ended)
  {
  }

  lemma {:induction false} QueueRound(s: LinkState, ended: seq<Vehicle>, now: Tick)
    requires s.q != []
    ensures var v, f := s.q[0].veh, Before(ended, FillFromQueue(s, now));
            && (s.q[0].exit > now ==> f == Filled(s, ended))
            && (s.q[0].exit <= now && v.WantsToArrive() ==> f == Before(ended + [v], FillFromQueue(PopQueue(s), now)))
            && (s.q[0].exit <= now && !v.WantsToArrive() && FlowLeft(s) ==>
                  f == Before(ended, FillFromQueue(PopQueue(s).(buffer := s.buffer + [v]), now)))
            && (s.q[0].exit <= now && !v.WantsToArrive() && !FlowLeft(s) ==> f == Filled(s, ended))
  {
    hide Pce;
    var rest := FillFromQueue(PopQueue(s), now);
    assert ended + ([s.q[0].veh] + rest.ended) == ended + [s.q[0].veh] + rest.ended;
  }

  lemma {:induction false} QueueDone(s: LinkState, ended: seq<Vehicle>, now: Tick)
    ensures s.q == [] || s.q[0].exit > now || (!s.q[0].veh.WantsToArrive() && !FlowLeft(s)) ==>
              Before(ended, FillFromQueue(s, now)) == Filled(s, ended)
  {
    hide Pce;
  }

  datatype OutState = OutState(q: seq<Vehicle>, storage: StorageState)

  /** The upstream half of a link whose queue lives in another partition. */
  class SplitOutLink {
    const id: LinkId
    const toPart: Part
    var q: seq<Vehicle>
    const storageCap: StorageCap

    ghost function Footprint(): (r: set<object>)
    {
      {this, storageCap}
    }

    function State(): (s: OutState)
      reads Footprint()
    {
      OutState(q, storageCap.State())
    }

    constructor (id: LinkId, l: NetLink, c: Config, toPart: Part)
      requires ValidConfig(c)
      ensures this.id == id && this.toPart == toPart
      ensures State() == OutState([], StorageState(StorageMax(l, c), 0.0))
      ensures fresh(Footprint())
    {
      this.id := id;
      this.toPart := toPart;
      q := [];
      storageCap := new StorageCap(l.length, l.lanes, l.capacity, c.sampleSize, c.cellSize);
    }

    method ApplyStorageCapUpdate(released: real)
      modifies Footprint()
      ensures State() == old(State()).(storage := old(State()).storage.(used := old(State()).storage.used - released))
    {
      storageCap.Consume(-released);
    }

    method TakeVeh() returns (vehicles: seq<Vehicle>)
      modifies Footprint()
      ensures vehicles == old(q) && State() == old(State()).(q := [])
    {
      vehicles := q;
      q := [];
    }

    /** A vehicle can only be put at the start of the queue here, never into a waiting list. */
    method PushVeh(v: Vehicle, position: LinkPosition)
      requires position.QStart?
      modifies Footprint()
      ensures State() == OutState(old(q) + [v], old(State()).storage.(used := old(State()).storage.used + v.pce))
    {
      storageCap.Consume(v.pce);
      q := q + [v];
    }
  }
}
