/**
 * What the operations of a link compute, as functions on link states: a waiting list and a queue
 * feed a buffer whose content is limited by the remaining flow capacity.
 */
module LinkSpec {
  import opened Basics
  import opened FlowCap
  import opened Storage
  import opened StuckTimers

  /** The fixed attributes of a link; tps is the number of ticks per second. */
  datatype LinkAttr = LinkAttr(length: real, freeSpeed: real, tps: nat, threshold: Tick)

  datatype QEntry = QEntry(veh: Vehicle, exit: Tick)

  datatype LinkState = LinkState(
    attr: LinkAttr,
    q: seq<QEntry>,
    buffer: seq<Vehicle>,
    waiting: seq<Vehicle>,
    storage: StorageState,
    flow: FlowState,
    timer: TimerState)

  datatype Filled = Filled(s: LinkState, ended: seq<Vehicle>)

  function Vehs(q: seq<QEntry>): (r: seq<Vehicle>)
    ensures |r| == |q| && forall i :: 0 <= i < |q| ==> r[i] == q[i].veh
  {
    seq(|q|, i requires 0 <= i < |q| => q[i].veh)
  }

  /** Nanoseconds of a tick, rounded down. */
  function TickNanos(tps: nat, t: Tick): (r: nat)
    requires tps > 0
  {
    t * NANOS / tps
  }

  /**
   * Ticks needed to traverse the link, rounded down and clamped to the range of a tick as the
   * conversion from floating point does.
   */
  function TravelTicks(attr: LinkAttr, v: Vehicle): (r: Tick)
  {
    var speed := if v.maxV < attr.freeSpeed then v.maxV else attr.freeSpeed;
    if speed == 0.0 then
      if attr.length > 0.0 then U64_MAX else 0
    else
      var x := (attr.length / speed * (attr.tps as real)).Floor;
      if x < 0 then 0 else if x > U64_MAX then U64_MAX else x
  }

  /**
   * The ticks at the smaller of the two speeds: in as many ticks the vehicle does not get beyond the
   * end of the link, in one more it does at either speed. Only the range of a tick cuts this short.
   */
  lemma {:induction false} TravelTicksAre(attr: LinkAttr, v: Vehicle)
    requires attr.length >= 0.0 && attr.freeSpeed > 0.0 && v.maxV > 0.0
    ensures var k, way := TravelTicks(attr, v) as real, attr.length * attr.tps as real;
            && (k * v.maxV <= way || k * attr.freeSpeed <= way)
            && (TravelTicks(attr, v) < U64_MAX ==> (k + 1.0) * v.maxV > way && (k + 1.0) * attr.freeSpeed > way)
  {
    hide TravelTicks;
    var speed := if v.maxV < attr.freeSpeed then v.maxV else attr.freeSpeed;
    var k := TravelTicks(attr, v) as real;
    TicksAtSpeed(attr, v, speed);
    WayAtSpeed(attr.length, speed, attr.tps as real, k);
    WayAtSpeed(attr.length, speed, attr.tps as real, k + 1.0);
    AtHigherSpeed(k + 1.0, speed, v.maxV);
    AtHigherSpeed(k + 1.0, speed, attr.freeSpeed);
  }

  lemma {:induction false} TicksAtSpeed(attr: LinkAttr, v: Vehicle, speed: real)
    requires attr.length >= 0.0 && speed > 0.0 && speed == if v.maxV < attr.freeSpeed then v.maxV else attr.freeSpeed
    ensures var k, x := TravelTicks(attr, v), attr.length / speed * attr.tps as real;
            k as real <= x && (k < U64_MAX ==> k as real + 1.0 > x)
  {
    NotNegative(attr.length, speed, attr.tps);
  }

  lemma {:induction false} WayAtSpeed(length: real, speed: real, tps: real, t: real)
    requires speed > 0.0
    ensures t <= length / speed * tps ==> t * speed <= length * tps
    ensures t > length / speed * tps ==> t * speed > length * tps
  {
    var a := length / speed;
    assert a * speed == length;
    OtherOrder(a, speed, tps);
    InMoreTime(t, a * tps, speed);
    InMoreTime(a * tps, t, speed);
  }

  lemma {:induction false} OtherOrder(a: real, b: real, c: real)
    ensures a * c * b == a * b * c
  {
  }

  lemma {:induction false} NotNegative(length: real, speed: real, tps: nat)
    requires length >= 0.0 && speed > 0.0
    ensures length / speed * tps as real >= 0.0
  {
    assert length / speed >= 0.0;
  }

  lemma {:induction false} InMoreTime(a: real, b: real, c: real)
    requires c > 0.0
    ensures a <= b ==> a * c <= b * c
    ensures a < b ==> a * c < b * c
  {
  }

  lemma {:induction false} AtHigherSpeed(a: real, b: real, c: real)
    requires a >= 0.0 && b <= c
    ensures a * b <= a * c
  {
  }

  /** A vehicle that does not move never gets to the end of a link that has one. */
  lemma {:induction false} WithoutSpeed(attr: LinkAttr, v: Vehicle)
    requires attr.freeSpeed >= 0.0 && v.maxV >= 0.0 && (attr.freeSpeed == 0.0 || v.maxV == 0.0)
    ensures TravelTicks(attr, v) == if attr.length > 0.0 then U64_MAX else 0
  {
  }

  /** A vehicle enters the queue at its start. */
  function PushQueue(s: LinkState, v: Vehicle, now: Tick): (r: LinkState)
  {
    s.(q := s.q + [QEntry(v, SatAdd(now, TravelTicks(s.attr, v)))],
       storage := s.storage.(used := s.storage.used + v.pce))
  }

  function PushWaiting(s: LinkState, v: Vehicle): (r: LinkState)
  {
    s.(waiting := s.waiting + [v])
  }

  predicate FlowLeft(s: LinkState)
  {
    s.flow.remaining - Pce(s.buffer) > 0.0
  }

  /** Moves the waiting list into the buffer; vehicles that already are at their goal end here. */
  function FillFromWaiting(s: LinkState): (r: Filled)
    decreases |s.waiting|
  {
    if s.waiting == [] then Filled(s, [])
    else
      var v := s.waiting[0];
      if v.WantsToArrive() then
        var rest := FillFromWaiting(s.(waiting := s.waiting[1..]));
        Filled(rest.s, [v] + rest.ended)
      else if FlowLeft(s) then
        FillFromWaiting(s.(waiting := s.waiting[1..], buffer := s.buffer + [v]))
      else Filled(s, [])
  }

  function PopQueue(s: LinkState): (r: LinkState)
    requires s.q != []
  {
    s.(q := s.q[1..], storage := s.storage.(used := s.storage.used - s.q[0].veh.pce))
  }

  /** Moves the head of the queue on for as long as its earliest exit tick has come. */
  function FillFromQueue(s: LinkState, now: Tick): (r: Filled)
    decreases |s.q|
  {
    if s.q == [] || s.q[0].exit > now then Filled(s, [])
    else
      var v := s.q[0].veh;
      if v.WantsToArrive() then
        var rest := FillFromQueue(PopQueue(s), now);
        Filled(rest.s, [v] + rest.ended)
      else if FlowLeft(s) then
        FillFromQueue(PopQueue(s).(buffer := s.buffer + [v]), now)
      else Filled(s, [])
  }

  function UpdateFlow(s: LinkState, now: Tick): (r: LinkState)
    requires s.attr.tps > 0
  {
    s.(flow := Refill(s.flow, TickNanos(s.attr.tps, now)))
  }

  function SimStep(s: LinkState, now: Tick): (r: Filled)
    requires s.attr.tps > 0
  {
    var w := FillFromWaiting(UpdateFlow(s, now));
    var f := FillFromQueue(w.s, now);
    Filled(f.s, w.ended + f.ended)
  }

  /** The head of the buffer may leave, provided there is flow capacity. */
  predicate Offers(s: LinkState)
  {
    s.buffer != [] && HasCapacityLeft(s.flow)
  }

  /** Asking a link for its offer starts the timer of the vehicle that it offers. */
  function Offer(s: LinkState, now: Tick): (r: LinkState)
  {
    if Offers(s) then s.(timer := Start(s.timer, now)) else s
  }

  function Pop(s: LinkState): (r: LinkState)
    requires s.buffer != []
  {
    s.(buffer := s.buffer[1..], flow := Consume(s.flow, s.buffer[0].pce), timer := None)
  }

  /** A link is active if any vehicle is on it. */
  predicate Active(s: LinkState)
  {
    s.q != [] || s.waiting != [] || s.buffer != []
  }

  /** All vehicles on the link, in the order in which a link is drained. */
  function OnLink(s: LinkState): (r: seq<Vehicle>)
  {
    Vehs(s.q) + s.buffer + s.waiting
  }

  // ------------------------------------------------------------------ shape of a link step

  /** Filling from the waiting list took its first w vehicles. */
  predicate WaitingShape(s: LinkState, r: Filled, w: int)
  {
    && 0 <= w <= |s.waiting|
    && r.ended == Arriving(s.waiting[..w])
    && r.s == s.(waiting := s.waiting[w..], buffer := s.buffer + Continuing(s.waiting[..w]))
  }

  lemma {:induction false} FillFromWaitingShape(s: LinkState)
    ensures var r := FillFromWaiting(s); WaitingShape(s, r, |s.waiting| - |r.s.waiting|)
    decreases |s.waiting|, 0
  {
    if s.waiting != [] {
      var v := s.waiting[0];
      if v.WantsToArrive() {
        WaitingShapeStep(s, s.(waiting := s.waiting[1..]));
      } else if FlowLeft(s) {
        WaitingShapeStep(s, s.(waiting := s.waiting[1..], buffer := s.buffer + [v]));
      }
    }
  }

  lemma {:induction false} WaitingShapeStep(s: LinkState, s1: LinkState)
    requires s.waiting != []
    requires s1 == s.(waiting := s.waiting[1..],
                      buffer := if s.waiting[0].WantsToArrive() then s.buffer else s.buffer + [s.waiting[0]])
    ensures var r := FillFromWaiting(s1);
            var ended := if s.waiting[0].WantsToArrive() then [s.waiting[0]] + r.ended else r.ended;
            WaitingShape(s, Filled(r.s, ended), |s.waiting| - |r.s.waiting|)
    decreases |s1.waiting|, 1
  {
    FillFromWaitingShape(s1);
    var r := FillFromWaiting(s1);
    var w := |s.waiting| - |r.s.waiting|;
    assert s.waiting[..w][1..] == s1.waiting[..w - 1];
    assert s.waiting[w..] == s1.waiting[w - 1..];
    assert s1.buffer + Continuing(s1.waiting[..w - 1]) == s.buffer + Continuing(s.waiting[..w]);
  }

  /** Filling from the queue took its first k vehicles, whose exit ticks had come. */
  predicate QueueShape(s: LinkState, r: Filled, k: int, now: Tick)
  {
    && 0 <= k <= |s.q|
    && r.ended == Arriving(Vehs(s.q[..k]))
    && r.s == s.(q := s.q[k..], buffer := s.buffer + Continuing(Vehs(s.q[..k])),
                 storage := s.storage.(used := s.storage.used - Pce(Vehs(s.q[..k]))))
    && (forall i :: 0 <= i < k ==> s.q[i].exit <= now)
  }

  lemma {:induction false} FillFromQueueShape(s: LinkState, now: Tick)
    ensures var r := FillFromQueue(s, now); QueueShape(s, r, |s.q| - |r.s.q|, now)
    decreases |s.q|, 0
  {
    hide Pce, Vehs, Vehicle.WantsToArrive, QueueShape, FlowLeft;
    if s.q == [] || s.q[0].exit > now {
      QueueShapeStop(s, now);
    } else {
      var v := s.q[0].veh;
      if v.WantsToArrive() {
        QueueShapeStep(s, PopQueue(s), now);
      } else if FlowLeft(s) {
        QueueShapeStep(s, PopQueue(s).(buffer := s.buffer + [v]), now);
      } else {
        QueueShapeStop(s, now);
      }
    }
  }

  lemma {:induction false} QueueShapeStop(s: LinkState, now: Tick)
    ensures QueueShape(s, Filled(s, []), 0, now)
  {
    assert Vehs(s.q[..0]) == [];
    assert s.q[0..] == s.q;
    assert s.buffer + [] == s.buffer;
  }

  lemma {:induction false} QueueShapeStep(s: LinkState, s1: LinkState, now: Tick)
    requires s.q != [] && s.q[0].exit <= now
    requires s1 == PopQueue(s).(buffer := if s.q[0].veh.WantsToArrive() then s.buffer else s.buffer + [s.q[0].veh])
    ensures var r := FillFromQueue(s1, now);
            var ended := if s.q[0].veh.WantsToArrive() then [s.q[0].veh] + r.ended else r.ended;
            QueueShape(s, Filled(r.s, ended), |s.q| - |r.s.q|, now)
    decreases |s1.q|, 1
  {
    hide FillFromQueue, QueueShape, Vehicle.WantsToArrive;
    FillFromQueueShape(s1, now);
    var r := FillFromQueue(s1, now);
    QueueShapeCons(s, s1, r, |s1.q| - |r.s.q|, now);
  }

  /** What holds of the rest of the queue holds with its first vehicle in front. */
  lemma {:induction false} QueueShapeCons(s: LinkState, s1: LinkState, r: Filled, k: int, now: Tick)
    requires s.q != [] && s.q[0].exit <= now && QueueShape(s1, r, k, now)
    requires s1 == PopQueue(s).(buffer := if s.q[0].veh.WantsToArrive() then s.buffer else s.buffer + [s.q[0].veh])
    ensures QueueShape(s, Filled(r.s, if s.q[0].veh.WantsToArrive() then [s.q[0].veh] + r.ended else r.ended), k + 1, now)
  {
    hide Vehs, Pce, Arriving, Continuing, Vehicle.WantsToArrive;
    var v, vs, rest := s.q[0].veh, Vehs(s.q[..k + 1]), Vehs(s1.q[..k]);
    FirstVeh(s.q, k);
    assert s.q[k + 1..] == s1.q[k..];
    FirstOf(v, rest);
    assert s1.buffer + Continuing(rest) == s.buffer + Continuing(vs);
  }

  lemma {:induction false} FirstVeh(q: seq<QEntry>, k: nat)
    requires k < |q|
    ensures Vehs(q[..k + 1]) == [q[0].veh] + Vehs(q[1..][..k])
  {
    assert forall i :: 0 < i <= k ==> q[i] == q[1..][i - 1];
  }

  lemma {:induction false} FirstOf(v: Vehicle, rest: seq<Vehicle>)
    ensures Pce([v] + rest) == v.pce + Pce(rest)
    ensures Arriving([v] + rest) == (if v.WantsToArrive() then [v] + Arriving(rest) else Arriving(rest))
    ensures Continuing([v] + rest) == (if v.WantsToArrive() then Continuing(rest) else [v] + Continuing(rest))
  {
    assert ([v] + rest)[1..] == rest;
  }

  function WaitingTaken(s: LinkState, now: Tick): (r: int)
    requires s.attr.tps > 0
  {
    |s.waiting| - |SimStep(s, now).s.waiting|
  }

  function QueueTaken(s: LinkState, now: Tick): (r: int)
    requires s.attr.tps > 0
  {
    |s.q| - |SimStep(s, now).s.q|
  }

  /** A whole link step: which vehicles move into the buffer, which end, and what is released. */
  lemma {:induction false} SimStepShape(s: LinkState, now: Tick)
    requires s.attr.tps > 0
    ensures var r := SimStep(s, now);
            var w, k := WaitingTaken(s, now), QueueTaken(s, now);
            && 0 <= w <= |s.waiting| && r.s.waiting == s.waiting[w..]
            && 0 <= k <= |s.q| && r.s.q == s.q[k..]
            && r.ended == Arriving(s.waiting[..w]) + Arriving(Vehs(s.q[..k]))
            && r.s == UpdateFlow(s, now).(q := r.s.q, waiting := r.s.waiting,
                         buffer := s.buffer + Continuing(s.waiting[..w]) + Continuing(Vehs(s.q[..k])),
                         storage := s.storage.(used := s.storage.used - Pce(Vehs(s.q[..k]))))
            && (forall i :: 0 <= i < k ==> s.q[i].exit <= now)
  {
    FillFromWaitingShape(UpdateFlow(s, now));
    FillFromQueueShape(FillFromWaiting(UpdateFlow(s, now)).s, now);
  }
}
