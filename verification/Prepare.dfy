/**
 * Preparing plans for the simulation: trips that cannot be simulated as they are get routed anew.
 * The router is a parameter; what is proved holds for every router, or for every router that keeps
 * the contract stated here.
 */
module Prepare {
  import opened Basics
  import opened RoadNetwork
  import opened TripSpans
  import NetInvariant

  datatype Error = NoLegs | AmbiguousMainMode | MissingDepartureTime | MissingVehicle | RoutingFailed

  datatype Result<+T, +E> = Ok(value: T) | Err(error: E)

  /** Why a plan could not be prepared, and at which of its trips. */
  datatype Failure = Failure(trip: nat, error: Error)

  /** What preparation looks up: the network, the modes allowed on a link, and the configuration. */
  datatype Context = Context(
    g: RoadNet,
    modes: map<LinkId, set<Mode>>,
    middle: map<LinkId, Coord>,
    mainModes: set<Mode>,
    accessMode: Mode,
    garage: set<VehicleId>)

  datatype Request = Request(from: PlanActivity, to: PlanActivity, departure: nat, vehicle: Option<VehicleId>)

  type Router = (Mode, Request) -> Result<seq<Element>, Error>

  /** A person: the id of the default vehicle for each mode. */
  type Person = Mode -> VehicleId

  // ------------------------------------------------------------------ assessment

  function Legs(es: seq<Element>): (r: seq<PlanLeg>)
  {
    if es == [] then [] else (if es[0].Leg? then [es[0].leg] else []) + Legs(es[1..])
  }

  /** The routing modes of the legs, each once, in order of appearance. */
  function RoutingModes(legs: seq<PlanLeg>): (r: seq<Mode>)
    ensures forall m :: m in r <==> exists i :: 0 <= i < |legs| && legs[i].routingMode == Some(m)
  {
    if legs == [] then []
    else
      var front, last := RoutingModes(legs[..|legs| - 1]), legs[|legs| - 1].routingMode;
      assert forall i :: 0 <= i < |legs| - 1 ==> legs[..|legs| - 1][i] == legs[i];
      if last.Some? && last.value !in front then front + [last.value] else front
  }

  function ResolveMainMode(legs: seq<PlanLeg>): (r: Result<Mode, Error>)
  {
    if legs == [] then Err(NoLegs)
    else
      var modes := RoutingModes(legs);
      if |modes| == 1 then Ok(modes[0])
      else if |legs| == 1 then Ok(legs[0].mode)
      else Err(AmbiguousMainMode)
  }

  predicate GenericRouteIsValid(r: GenericRoute)
  {
    r.distance.Some? && r.travTime.Some? && r.distance.value.Finite? && r.distance.value.value >= 0.0
  }

  /** A link without modes allows all of them. */
  predicate AllowsMode(c: Context, l: LinkId, mode: Mode)
    requires l in c.modes
  {
    c.modes[l] == {} || mode in c.modes[l]
  }

  predicate NetworkRouteIsValid(c: Context, route: seq<LinkId>, mode: Mode, generic: GenericRoute)
    requires forall l :: l in route ==> l in c.modes && l in c.g.links
  {
    && route != [] && route[0] == generic.start && route[|route| - 1] == generic.end
    && (forall i :: 0 <= i < |route| ==> AllowsMode(c, route[i], mode))
    && (forall i :: 0 <= i < |route| - 1 ==> c.g.links[route[i]].to == c.g.links[route[i + 1]].from)
  }

  ghost predicate KnownRoute(c: Context, r: Option<Route>)
  {
    r.Some? && r.value.OnNetwork? ==> forall l :: l in r.value.links ==> l in c.modes && l in c.g.links
  }

  predicate LegIsValid(c: Context, leg: PlanLeg)
    requires KnownRoute(c, leg.route)
  {
    && leg.travTime.Some? && leg.route.Some?
    && GenericRouteIsValid(leg.route.value.generic)
    && (leg.route.value.OnNetwork? ==>
          NetworkRouteIsValid(c, leg.route.value.links, leg.mode, leg.route.value.generic))
  }

  function Interactions(es: seq<Element>): (n: nat)
  {
    if es == [] then 0 else (if es[0].Act? && es[0].act.interaction then 1 else 0) + Interactions(es[1..])
  }

  ghost predicate KnownLegs(c: Context, legs: seq<PlanLeg>)
  {
    forall i :: 0 <= i < |legs| ==> KnownRoute(c, legs[i].route)
  }

  predicate TripIsValid(c: Context, trip: seq<Element>, mode: Mode)
    requires KnownLegs(c, Legs(trip))
  {
    var legs := Legs(trip);
    && (forall i :: 0 <= i < |legs| ==> legs[i].routingMode == Some(mode) && LegIsValid(c, legs[i]))
    && (mode in c.mainModes ==>
          && legs != [] && legs[0].mode == c.accessMode && legs[|legs| - 1].mode == c.accessMode
          && (exists i :: 0 <= i < |legs| && legs[i].mode == mode && legs[i].route.Some? && legs[i].route.value.OnNetwork?)
          && Interactions(trip) >= 2)
  }

  datatype Assessment = Valid | NeedsRouting(mode: Mode)

  function AssessTrip(c: Context, trip: seq<Element>): (r: Result<Assessment, Error>)
    requires KnownLegs(c, Legs(trip))
  {
    match ResolveMainMode(Legs(trip))
    case Err(e) => Err(e)
    case Ok(mode) => if TripIsValid(c, trip, mode) then Ok(Valid) else Ok(NeedsRouting(mode))
  }

  /** What makes a network route valid here is what makes it safe to drive. */
  lemma {:induction false} ValidRoutesAreConnected(c: Context, leg: PlanLeg)
    requires KnownRoute(c, leg.route) && LegIsValid(c, leg) && leg.route.value.OnNetwork?
    ensures var route := leg.route.value;
            && NetInvariant.Connected(c.g, route.links)
            && route.links != [] && route.links[0] == route.generic.start && route.links[|route.links| - 1] == route.generic.end
  {
    var links := leg.route.value.links;
    assert forall i :: 0 <= i < |links| ==> links[i] in links;
  }

  // ------------------------------------------------------------------ what a valid trip is

  /** A leg whose route can be simulated: times, a distance, and on the network a connected way from start to end that is open to its mode. */
  ghost predicate LegOk(c: Context, leg: PlanLeg)
  {
    && leg.travTime.Some? && leg.route.Some?
    && var g := leg.route.value.generic;
       && g.travTime.Some? && (exists d: real :: g.distance == Some(Finite(d)) && d >= 0.0)
       && (leg.route.value.OnNetwork? ==>
             var ls := leg.route.value.links;
             && ls != [] && ls[0] == g.start && ls[|ls| - 1] == g.end && NetInvariant.Connected(c.g, ls)
             && forall l :: l in ls ==> l in c.modes && (c.modes[l] != {} ==> leg.mode in c.modes[l]))
  }

  ghost predicate LegAt(trip: seq<Element>, i: int)
  {
    0 <= i < |trip| && trip[i].Leg?
  }

  ghost predicate StageAt(trip: seq<Element>, i: int)
  {
    0 <= i < |trip| && trip[i].Act? && trip[i].act.interaction
  }

  /** On the network a trip begins and ends with the access mode, has a leg in its mode on the network, and two stages at least. */
  ghost predicate HasAccess(c: Context, trip: seq<Element>, mode: Mode)
  {
    && (exists i :: LegAt(trip, i) && trip[i].leg.mode == c.accessMode && forall j :: j < i ==> !LegAt(trip, j))
    && (exists i :: LegAt(trip, i) && trip[i].leg.mode == c.accessMode && forall j :: i < j ==> !LegAt(trip, j))
    && (exists i :: LegAt(trip, i) && trip[i].leg.mode == mode && trip[i].leg.route.Some? && trip[i].leg.route.value.OnNetwork?)
    && (exists i, j :: i < j && StageAt(trip, i) && StageAt(trip, j))
  }

  /** A trip can be simulated as it is exactly if all its legs can, in this mode, and on the network it has access and egress. */
  lemma {:induction false} ValidTripIs(c: Context, trip: seq<Element>, mode: Mode)
    requires KnownLegs(c, Legs(trip))
    ensures TripIsValid(c, trip, mode) <==>
              && (forall i :: LegAt(trip, i) ==> trip[i].leg.routingMode == Some(mode) && LegOk(c, trip[i].leg))
              && (mode in c.mainModes ==> HasAccess(c, trip, mode))
  {
    hide Legs, Interactions, LegIsValid, LegOk;
    var legs := Legs(trip);
    LegsOf(trip);
    FirstAndLastLeg(trip);
    StagesCounted(trip);
    forall i | 0 <= i < |legs|
      ensures LegIsValid(c, legs[i]) <==> LegOk(c, legs[i])
    {
      LegOkIs(c, legs[i]);
    }
  }

  lemma {:induction false} LegOkIs(c: Context, leg: PlanLeg)
    requires KnownRoute(c, leg.route)
    ensures LegIsValid(c, leg) <==> LegOk(c, leg)
  {
    if leg.route.Some? {
      var g := leg.route.value.generic;
      assert GenericRouteIsValid(g) <==> g.travTime.Some? && exists d: real :: g.distance == Some(Finite(d)) && d >= 0.0;
      if leg.route.value.OnNetwork? {
        var ls := leg.route.value.links;
        assert forall i :: 0 <= i < |ls| ==> ls[i] in ls;
        assert forall l :: l in ls ==> exists i :: 0 <= i < |ls| && ls[i] == l;
      }
    }
  }

  /** Where leg k is among the elements. */
  function Place(trip: seq<Element>, k: nat): (i: nat)
    requires k < |Legs(trip)|
    decreases |trip|
  {
    if trip[0].Leg? && k == 0 then 0 else 1 + Place(trip[1..], if trip[0].Leg? then k - 1 else k)
  }

  lemma {:induction false} PlaceIs(trip: seq<Element>, k: nat)
    requires k < |Legs(trip)|
    ensures var i := Place(trip, k);
            && LegAt(trip, i) && trip[i].leg == Legs(trip)[k]
            && (k == 0 ==> forall j :: j < i ==> !LegAt(trip, j))
            && (k == |Legs(trip)| - 1 ==> forall j :: i < j ==> !LegAt(trip, j))
    decreases |trip|
  {
    var rest, i := trip[1..], Place(trip, k);
    assert forall j :: j > 0 ==> (LegAt(trip, j) <==> LegAt(rest, j - 1));
    assert [] + Legs(rest) == Legs(rest);
    if trip[0].Leg? && k == 0 {
      assert LegAt(trip, 0);
      if |Legs(trip)| == 1 {
        NoneWithoutLegs(rest);
      }
    } else {
      PlaceIs(rest, if trip[0].Leg? then k - 1 else k);
    }
  }

  lemma {:induction false} NoneWithoutLegs(trip: seq<Element>)
    requires Legs(trip) == []
    ensures forall j :: !LegAt(trip, j)
  {
    if trip != [] {
      NoneWithoutLegs(trip[1..]);
      assert forall j :: j > 0 ==> (LegAt(trip, j) <==> LegAt(trip[1..], j - 1));
    }
  }

  lemma {:induction false} LegIsThere(trip: seq<Element>, i: nat)
    requires LegAt(trip, i)
    ensures trip[i].leg in Legs(trip)
    decreases |trip|
  {
    if i > 0 {
      LegIsThere(trip[1..], i - 1);
    }
  }

  ghost predicate IsAmong(trip: seq<Element>, leg: PlanLeg)
  {
    exists i :: LegAt(trip, i) && trip[i].leg == leg
  }

  /** The legs are the elements that are legs. */
  lemma {:induction false} LegsOf(trip: seq<Element>)
    ensures forall i :: LegAt(trip, i) ==> trip[i].leg in Legs(trip)
    ensures forall k :: 0 <= k < |Legs(trip)| ==> IsAmong(trip, Legs(trip)[k])
  {
    hide Legs;
    forall i | LegAt(trip, i)
      ensures trip[i].leg in Legs(trip)
    {
      LegIsThere(trip, i);
    }
    forall k | 0 <= k < |Legs(trip)|
      ensures IsAmong(trip, Legs(trip)[k])
    {
      PlaceIs(trip, k);
    }
  }

  lemma {:induction false} FirstAndLastLeg(trip: seq<Element>)
    ensures Legs(trip) != [] ==>
              && (exists i :: LegAt(trip, i) && trip[i].leg == Legs(trip)[0] && forall j :: j < i ==> !LegAt(trip, j))
              && (exists i :: LegAt(trip, i) && trip[i].leg == Legs(trip)[|Legs(trip)| - 1] && forall j :: i < j ==> !LegAt(trip, j))
  {
    hide Legs, Place;
    if Legs(trip) != [] {
      PlaceIs(trip, 0);
      PlaceIs(trip, |Legs(trip)| - 1);
    }
  }

  lemma {:induction false} StagesCounted(trip: seq<Element>)
    ensures Interactions(trip) >= 1 <==> exists i :: StageAt(trip, i)
    ensures Interactions(trip) >= 2 <==> exists i, j :: i < j && StageAt(trip, i) && StageAt(trip, j)
  {
    if trip != [] {
      var rest := trip[1..];
      StagesCounted(rest);
      OneStage(trip);
      TwoStages(trip);
    }
  }

  lemma {:induction false} OneStage(trip: seq<Element>)
    requires trip != []
    ensures (exists i :: StageAt(trip, i)) <==> StageAt(trip, 0) || exists i :: StageAt(trip[1..], i)
  {
    var rest := trip[1..];
    if i :| StageAt(rest, i) {
      assert StageAt(trip, i + 1);
    }
    if i :| StageAt(trip, i) {
      assert i > 0 ==> StageAt(rest, i - 1);
    }
  }

  lemma {:induction false} TwoStages(trip: seq<Element>)
    requires trip != []
    ensures (exists i, j :: i < j && StageAt(trip, i) && StageAt(trip, j)) <==>
            (StageAt(trip, 0) && exists j :: StageAt(trip[1..], j)) || exists i, j :: i < j && StageAt(trip[1..], i) && StageAt(trip[1..], j)
  {
    var rest := trip[1..];
    if i, j :| i < j && StageAt(rest, i) && StageAt(rest, j) {
      assert StageAt(trip, i + 1) && StageAt(trip, j + 1);
    }
    if j :| StageAt(rest, j) {
      assert StageAt(trip, j + 1);
    }
    if i, j :| i < j && StageAt(trip, i) && StageAt(trip, j) {
      assert StageAt(rest, j - 1) && (i > 0 ==> StageAt(rest, i - 1));
    }
  }

  // ------------------------------------------------------------------ a request

  /** The end of one plan element that begins at a given time. */
  function ElementEnd(e: Element, start: nat): (r: Option<nat>)
  {
    match e
    case Act(a) =>
      if a.endTime.Some? then a.endTime
      else if a.maxDur.Some? then Some(start + a.maxDur.value)
      else None
    case Leg(l) =>
      if l.route.Some? && l.route.value.generic.travTime.Some? then Some(start + l.route.value.generic.travTime.value)
      else if l.travTime.Some? then Some(start + l.travTime.value)
      else None
  }

  function ElementsEnd(es: seq<Element>, start: nat): (r: Option<nat>)
  {
    if es == [] then Some(start)
    else match ElementEnd(es[0], start)
      case None => None
      case Some(t) => ElementsEnd(es[1..], t)
  }

  /** The first vehicle of the garage that a leg of this mode names. */
  function VehicleOfLegs(c: Context, legs: seq<PlanLeg>, mode: Mode): (r: Option<VehicleId>)
  {
    if legs == [] then None
    else if legs[0].mode == mode && legs[0].route.Some? && legs[0].route.value.OnNetwork?
            && legs[0].route.value.generic.vehicle.Some? && legs[0].route.value.generic.vehicle.value in c.garage
    then legs[0].route.value.generic.vehicle
    else VehicleOfLegs(c, legs[1..], mode)
  }

  function VehicleForTrip(c: Context, person: Person, legs: seq<PlanLeg>, mode: Mode): (r: Result<Option<VehicleId>, Error>)
  {
    if mode !in c.mainModes then Ok(None)
    else if VehicleOfLegs(c, legs, mode).Some? then Ok(VehicleOfLegs(c, legs, mode))
    else if person(mode) in c.garage then Ok(Some(person(mode)))
    else Err(MissingVehicle)
  }

  // ------------------------------------------------------------------ preparing a plan

  /** Every link that the plan names is in the network; otherwise looking it up panics. */
  ghost predicate Known(c: Context, es: seq<Element>)
  {
    && c.g.links.Keys == c.modes.Keys == c.middle.Keys
    && (forall i :: 0 <= i < |es| && es[i].Act? ==> es[i].act.link in c.g.links)
    && (forall i :: 0 <= i < |es| && es[i].Leg? ==> KnownRoute(c, es[i].leg.route))
  }

  function Located(c: Context, e: Element): (r: Element)
    requires e.Act? ==> e.act.link in c.middle
  {
    if e.Act? && e.act.coord.None? then Act(e.act.(coord := Some(c.middle[e.act.link]))) else e
  }

  ghost predicate AllLocated(es: seq<Element>)
  {
    forall i :: 0 <= i < |es| && es[i].Act? ==> es[i].act.coord.Some?
  }

  /** The activities that trips lead from and to have coordinates; without them a request cannot be made. */
  ghost predicate EndsLocated(es: seq<Element>)
  {
    forall i :: 0 <= i < |es| && Main(es[i]) ==> es[i].act.coord.Some?
  }

  method AssignActivityCoordinates(c: Context, plan: seq<Element>) returns (es: seq<Element>)
    requires Known(c, plan)
    ensures |es| == |plan| && forall i :: 0 <= i < |es| ==> es[i] == Located(c, plan[i])
    ensures forall i :: 0 <= i < |es| ==>
              if plan[i].Act? && plan[i].act.coord.None? then es[i] == Act(plan[i].act.(coord := Some(c.middle[plan[i].act.link])))
              else es[i] == plan[i]
    ensures AllLocated(es)
  {
    es := plan;
    for i := 0 to |plan|
      invariant |es| == |plan|
      invariant forall j :: 0 <= j < i ==> es[j] == Located(c, plan[j])
      invariant forall j :: i <= j < |es| ==> es[j] == plan[j]
    {
      es := es[i := Located(c, es[i])];
    }
  }

  ghost predicate KnownElements(c: Context, es: seq<Element>)
  {
    && (forall i :: 0 <= i < |es| && es[i].Act? ==> es[i].act.link in c.g.links)
    && (forall i :: 0 <= i < |es| && es[i].Leg? ==> KnownRoute(c, es[i].leg.route))
  }

  lemma {:induction false} KnownLegsOf(c: Context, es: seq<Element>)
    requires KnownElements(c, es)
    ensures KnownLegs(c, Legs(es))
  {
    if es != [] {
      assert forall i :: 0 <= i < |es[1..]| ==> es[1..][i] == es[i + 1];
      KnownLegsOf(c, es[1..]);
    }
  }

  /** Trip t of the plan needs nothing. */
  ghost predicate Assessed(c: Context, es: seq<Element>, t: TripSpan)
    requires 0 <= t.origin < t.destination < |es|
  {
    KnownLegs(c, Legs(TripElements(es, t))) && AssessTrip(c, TripElements(es, t)) == Ok(Valid)
  }

  /** What a router promises: a trip that can be simulated, without main activities, with coordinates and known links. */
  ghost predicate KeepsContract(c: Context, router: Router)
  {
    forall mode, request ::
      var r := router(mode, request);
      r.Ok? ==> r.value != [] && NoMain(r.value) && AllLocated(r.value) && KnownElements(c, r.value)
                && KnownLegs(c, Legs(r.value)) && AssessTrip(c, r.value) == Ok(Valid)
  }

  /** All that a router must keep for preparation to go on to the next trip. */
  ghost predicate KeepsTrips(c: Context, router: Router)
  {
    forall mode, request ::
      var r := router(mode, request);
      r.Ok? ==> r.value != [] && NoMain(r.value) && KnownElements(c, r.value)
  }

  /** What trip t needs to be simulated: nothing, or the answer to a request; or why no request can be made. */
  ghost function Need(c: Context, person: Person, es: seq<Element>, t: TripSpan): (r: Result<Option<(Mode, Request)>, Error>)
    requires IsTrip(es, t) && KnownLegs(c, Legs(TripElements(es, t)))
  {
    match AssessTrip(c, TripElements(es, t))
    case Err(e) => Err(e)
    case Ok(Valid) => Ok(None)
    case Ok(NeedsRouting(mode)) =>
      match (ElementsEnd(es[..t.origin + 1], 0), VehicleForTrip(c, person, Legs(TripElements(es, t)), mode))
      case (None, _) => Err(MissingDepartureTime)
      case (Some(_), Err(e)) => Err(e)
      case (Some(departure), Ok(vehicle)) =>
        Ok(Some((mode, Request(es[t.origin].act, es[t.destination].act, departure, vehicle))))
  }

  /** The plan with trip t prepared; None if nothing is to be done. */
  ghost function TripPrepared(c: Context, person: Person, es: seq<Element>, t: TripSpan, router: Router): (r: Result<Option<seq<Element>>, Error>)
    requires IsTrip(es, t) && KnownLegs(c, Legs(TripElements(es, t)))
  {
    match Need(c, person, es, t)
    case Err(e) => Err(e)
    case Ok(None) => Ok(None)
    case Ok(Some(sent)) =>
      match router(sent.0, sent.1)
      case Err(e) => Err(e)
      case Ok(rerouted) => Ok(Some(Spliced(es, t, rerouted)))
  }

  /** One trip: nothing if it is valid, otherwise the router's answer to the one request in its place. */
  method CheckAndAdaptTrip(c: Context, person: Person, es: seq<Element>, i: nat, router: Router)
    returns (r: Result<Option<seq<Element>>, Error>)
    requires Known(c, es) && EndsLocated(es) && i < |Trips(es)|
    ensures var t := Trips(es)[i];
            && IsTrip(es, t) && KnownLegs(c, Legs(TripElements(es, t)))
            && r == TripPrepared(c, person, es, t, router)
            && (r == Ok(None) <==> Assessed(c, es, t))
  {
    hide Trips, Known, EndsLocated, KnownLegs, AssessTrip, ElementsEnd, VehicleForTrip, Spliced;
    TripsAreTrips(es);
    var spans := GetTripSpans(es);
    var span := spans[i];
    assert span in Trips(es);
    var trip := TripElements(es, span);
    TripKnown(c, es, span);
    match AssessTrip(c, trip) {
      case Err(e) => return Err(e);
      case Ok(Valid) => return Ok(None);
      case Ok(NeedsRouting(mode)) =>
        var departure := ElementsEnd(es[..span.origin + 1], 0);
        if departure.None? {
          return Err(MissingDepartureTime);
        }
        var vehicle := VehicleForTrip(c, person, Legs(trip), mode);
        if vehicle.Err? {
          return Err(vehicle.error);
        }
        var request := Request(es[span.origin].act, es[span.destination].act, departure.value, vehicle.value);
        var rerouted := router(mode, request);
        if rerouted.Err? {
          return Err(rerouted.error);
        }
        return Ok(Some(Spliced(es, span, rerouted.value)));
    }
  }

  // ------------------------------------------------------------------ when no request can be made

  /** All legs that name a routing mode name m, and some leg does. */
  ghost predicate OnlyRoutingMode(legs: seq<PlanLeg>, m: Mode)
  {
    && (exists i :: 0 <= i < |legs| && legs[i].routingMode == Some(m))
    && (forall i :: 0 <= i < |legs| && legs[i].routingMode.Some? ==> legs[i].routingMode == Some(m))
  }

  /** The mode of a trip: the one routing mode of its legs, or the mode of its only leg if that names no routing mode. */
  ghost predicate IsMainMode(legs: seq<PlanLeg>, m: Mode)
  {
    OnlyRoutingMode(legs, m) || (|legs| == 1 && legs[0].routingMode.None? && legs[0].mode == m)
  }

  lemma {:induction false} ModesOnce(legs: seq<PlanLeg>)
    ensures forall i, j :: 0 <= i < j < |RoutingModes(legs)| ==> RoutingModes(legs)[i] != RoutingModes(legs)[j]
  {
    if legs != [] {
      ModesOnce(legs[..|legs| - 1]);
    }
  }

  lemma {:induction false} AllSame(modes: seq<Mode>, m: Mode)
    requires modes != [] && forall k :: 0 <= k < |modes| ==> modes[k] == m
    requires forall i, j :: 0 <= i < j < |modes| ==> modes[i] != modes[j]
    ensures modes == [m]
  {
    assert modes[0] == m && modes[|modes| - 1] == m;
  }

  /** Which mode a trip is in, exactly. */
  lemma {:induction false} MainModeIs(legs: seq<PlanLeg>)
    ensures ResolveMainMode(legs) == Err(NoLegs) <==> legs == []
    ensures forall m: Mode :: ResolveMainMode(legs) == Ok(m) <==> IsMainMode(legs, m)
    ensures ResolveMainMode(legs) == Err(AmbiguousMainMode) <==> |legs| > 1 && !exists m :: OnlyRoutingMode(legs, m)
  {
    var modes := RoutingModes(legs);
    ModesOnce(legs);
    if |modes| == 1 {
      assert modes[0] in modes;
      assert OnlyRoutingMode(legs, modes[0]) by {
        forall i | 0 <= i < |legs| && legs[i].routingMode.Some?
          ensures legs[i].routingMode == Some(modes[0])
        {
          assert legs[i].routingMode.value in modes;
        }
      }
    }
    hide RoutingModes;
    forall m: Mode | OnlyRoutingMode(legs, m)
      ensures modes == [m]
    {
      assert m in modes;
      forall k | 0 <= k < |modes|
        ensures modes[k] == m
      {
        assert modes[k] in modes;
      }
      AllSame(modes, m);
    }
    forall i | 0 <= i < |legs| && legs[i].routingMode.Some?
      ensures modes != []
    {
      assert legs[i].routingMode.value in modes;
    }
    if modes != [] && |legs| == 1 {
      assert modes[0] in modes;
      assert OnlyRoutingMode(legs, modes[0]);
    }
  }

  /** The element itself says when it ends, or how long it takes. */
  predicate HasEnd(e: Element)
  {
    match e
    case Act(a) => a.endTime.Some? || a.maxDur.Some?
    case Leg(l) => (l.route.Some? && l.route.value.generic.travTime.Some?) || l.travTime.Some?
  }

  /** The end of a part of a plan is known exactly if that of every element is, wherever it starts. */
  lemma {:induction false} EndsKnownIff(es: seq<Element>, start: nat)
    ensures ElementsEnd(es, start).Some? <==> forall i :: 0 <= i < |es| ==> HasEnd(es[i])
  {
    if es != [] {
      assert es == [es[0]] + es[1..];
      assert ElementEnd(es[0], start).Some? <==> HasEnd(es[0]);
      assert (forall i :: 0 <= i < |es| ==> HasEnd(es[i])) <==> HasEnd(es[0]) && forall i :: 0 <= i < |es[1..]| ==> HasEnd(es[1..][i]) by {
        assert forall i :: 0 < i < |es| ==> es[i] == es[1..][i - 1];
      }
      if HasEnd(es[0]) {
        EndsKnownIff(es[1..], ElementEnd(es[0], start).value);
      }
    }
  }

  /** How long the element takes by itself: an activity its duration, a leg the travel time of its route or else its own. */
  function Lasts(e: Element): (d: nat)
  {
    match e
    case Act(a) => if a.maxDur.Some? then a.maxDur.value else 0
    case Leg(l) =>
      if l.route.Some? && l.route.value.generic.travTime.Some? then l.route.value.generic.travTime.value
      else if l.travTime.Some? then l.travTime.value
      else 0
  }

  function AllLast(es: seq<Element>): (d: nat)
  {
    if es == [] then 0 else Lasts(es[0]) + AllLast(es[1..])
  }

  /** An activity with a fixed end, whenever it begins. */
  predicate EndsAt(e: Element, t: nat)
  {
    e.Act? && e.act.endTime == Some(t)
  }

  predicate Floating(e: Element)
  {
    e.Act? ==> e.act.endTime.None?
  }

  /** t is the last fixed end among the elements and the time that all after it take, or from start on the time that all take. */
  ghost predicate IsEnd(es: seq<Element>, start: nat, t: nat)
  {
    && (forall i, e: nat :: 0 <= i < |es| && EndsAt(es[i], e) && (forall j :: i < j < |es| ==> Floating(es[j])) ==> t == e + AllLast(es[i + 1..]))
    && ((forall i :: 0 <= i < |es| ==> Floating(es[i])) ==> t == start + AllLast(es))
  }

  lemma {:induction false} OneElement(es: seq<Element>, start: nat)
    requires es != [] && HasEnd(es[0])
    ensures ElementEnd(es[0], start).Some? && ElementsEnd(es, start) == ElementsEnd(es[1..], ElementEnd(es[0], start).value)
    ensures Floating(es[0]) ==> ElementEnd(es[0], start).value == start + Lasts(es[0])
    ensures forall e: nat :: EndsAt(es[0], e) ==> ElementEnd(es[0], start).value == e
  {
    hide ElementsEnd;
    assert ElementsEnd(es, start) == ElementsEnd(es[1..], ElementEnd(es[0], start).value) by {
      ElementsEndIs(es, start);
    }
  }

  lemma {:induction false} ElementsEndIs(es: seq<Element>, start: nat)
    requires es != []
    ensures ElementsEnd(es, start) == match ElementEnd(es[0], start) case None => None case Some(t) => ElementsEnd(es[1..], t)
  {
  }

  lemma {:induction false} FloatingEnd(es: seq<Element>, start: nat)
    requires forall i :: 0 <= i < |es| ==> HasEnd(es[i]) && Floating(es[i])
    ensures ElementsEnd(es, start) == Some(start + AllLast(es))
  {
    hide HasEnd, Floating, Lasts, ElementEnd;
    if es != [] {
      OneElement(es, start);
      assert forall i :: 0 <= i < |es[1..]| ==> es[1..][i] == es[i + 1];
      FloatingEnd(es[1..], ElementEnd(es[0], start).value);
    }
  }

  lemma {:induction false} FixedEnd(es: seq<Element>, start: nat, i: nat, e: nat)
    requires i < |es| && EndsAt(es[i], e) && (forall k :: 0 <= k < |es| ==> HasEnd(es[k])) && forall j :: i < j < |es| ==> Floating(es[j])
    ensures ElementsEnd(es, start) == Some(e + AllLast(es[i + 1..]))
    decreases i
  {
    hide HasEnd, Floating, Lasts, ElementEnd, ElementsEnd, EndsAt;
    var rest := es[1..];
    OneElement(es, start);
    assert forall k :: 0 <= k < |rest| ==> rest[k] == es[k + 1];
    if i == 0 {
      FloatingEnd(rest, e);
    } else {
      FixedEnd(rest, ElementEnd(es[0], start).value, i - 1, e);
      assert es[i + 1..] == rest[i..];
    }
  }

  lemma {:induction false} EndOfPart(es: seq<Element>, start: nat)
    requires forall i :: 0 <= i < |es| ==> HasEnd(es[i])
    ensures ElementsEnd(es, start).Some? && IsEnd(es, start, ElementsEnd(es, start).value)
  {
    hide HasEnd, Floating, ElementsEnd, EndsAt, AllLast;
    EndsKnownIff(es, start);
    var t := ElementsEnd(es, start).value;
    forall i, e: nat | 0 <= i < |es| && EndsAt(es[i], e) && forall j :: i < j < |es| ==> Floating(es[j])
      ensures t == e + AllLast(es[i + 1..])
    {
      FixedEnd(es, start, i, e);
    }
    if forall i :: 0 <= i < |es| ==> Floating(es[i]) {
      FloatingEnd(es, start);
    }
  }

  /** The leg is driven in this mode with a vehicle of the garage. */
  predicate NamesVehicle(c: Context, leg: PlanLeg, mode: Mode)
  {
    && leg.mode == mode && leg.route.Some? && leg.route.value.OnNetwork?
    && leg.route.value.generic.vehicle.Some? && leg.route.value.generic.vehicle.value in c.garage
  }

  /** Leg i is the first to do so. */
  ghost predicate FirstToName(c: Context, legs: seq<PlanLeg>, mode: Mode, i: nat)
  {
    i < |legs| && NamesVehicle(c, legs[i], mode) && forall j :: 0 <= j < i ==> !NamesVehicle(c, legs[j], mode)
  }

  lemma {:induction false} VehicleIsOfFirst(c: Context, legs: seq<PlanLeg>, mode: Mode)
    ensures VehicleOfLegs(c, legs, mode).None? <==> forall i :: 0 <= i < |legs| ==> !NamesVehicle(c, legs[i], mode)
    ensures forall i: nat :: FirstToName(c, legs, mode, i) ==> VehicleOfLegs(c, legs, mode) == legs[i].route.value.generic.vehicle
  {
    if legs != [] {
      var rest := legs[1..];
      VehicleIsOfFirst(c, rest, mode);
      assert forall j :: 0 < j < |legs| ==> legs[j] == rest[j - 1];
      forall i: nat | FirstToName(c, legs, mode, i) && i > 0
        ensures VehicleOfLegs(c, legs, mode) == legs[i].route.value.generic.vehicle
      {
        assert FirstToName(c, rest, mode, i - 1);
      }
    }
  }

  /** No vehicle can be found for a trip in this mode. */
  ghost predicate NoVehicle(c: Context, person: Person, legs: seq<PlanLeg>, mode: Mode)
  {
    mode in c.mainModes && person(mode) !in c.garage && forall i :: 0 <= i < |legs| ==> !NamesVehicle(c, legs[i], mode)
  }

  /** The trip has a mode but cannot be simulated as it is. */
  ghost predicate Unfit(c: Context, trip: seq<Element>)
    requires KnownLegs(c, Legs(trip))
  {
    exists m :: IsMainMode(Legs(trip), m) && !TripIsValid(c, trip, m)
  }

  /** Exactly when each error occurs, and what is sent to the router otherwise. */
  lemma {:induction false} NeedIs(c: Context, person: Person, es: seq<Element>, t: TripSpan)
    requires IsTrip(es, t) && KnownLegs(c, Legs(TripElements(es, t)))
    ensures var need, trip := Need(c, person, es, t), TripElements(es, t);
            var legs, timed := Legs(trip), forall j :: 0 <= j <= t.origin ==> HasEnd(es[j]);
            && (need == Err(NoLegs) <==> legs == [])
            && (need == Err(AmbiguousMainMode) <==> |legs| > 1 && !exists m :: OnlyRoutingMode(legs, m))
            && (need == Err(MissingDepartureTime) <==> Unfit(c, trip) && !timed)
            && (need == Err(MissingVehicle) <==> Unfit(c, trip) && timed && exists m :: IsMainMode(legs, m) && NoVehicle(c, person, legs, m))
            && need != Err(RoutingFailed)
            && (need == Ok(None) <==> exists m :: IsMainMode(legs, m) && TripIsValid(c, trip, m))
            && (need.Ok? && need.value.Some? ==>
                  var sent := need.value.value;
                  && IsMainMode(legs, sent.0) && !TripIsValid(c, trip, sent.0)
                  && sent.1.from == es[t.origin].act && sent.1.to == es[t.destination].act
                  && IsEnd(es[..t.origin + 1], 0, sent.1.departure)
                  && (sent.0 !in c.mainModes ==> sent.1.vehicle == None)
                  && (forall i: nat :: sent.0 in c.mainModes && FirstToName(c, legs, sent.0, i) ==>
                        sent.1.vehicle == legs[i].route.value.generic.vehicle)
                  && (sent.0 in c.mainModes && (forall i :: 0 <= i < |legs| ==> !NamesVehicle(c, legs[i], sent.0)) ==>
                        sent.1.vehicle == Some(person(sent.0)) && person(sent.0) in c.garage))
  {
    hide IsEnd, FirstToName;
    hide TripIsValid, Legs, ElementsEnd, VehicleOfLegs, IsMainMode, OnlyRoutingMode, ResolveMainMode, NamesVehicle, HasEnd;
    var trip := TripElements(es, t);
    var legs := Legs(trip);
    MainModeIs(legs);
    OneMainMode(legs);
    EndsKnownIff(es[..t.origin + 1], 0);
    var head := es[..t.origin + 1];
    assert forall j :: 0 <= j <= t.origin ==> es[j] == head[j];
    if forall j :: 0 <= j <= t.origin ==> HasEnd(es[j]) {
      EndOfPart(head, 0);
    }
    forall m: Mode
      ensures VehicleForTrip(c, person, legs, m) == Err(MissingVehicle) <==> NoVehicle(c, person, legs, m)
      ensures VehicleForTrip(c, person, legs, m).Err? ==> VehicleForTrip(c, person, legs, m) == Err(MissingVehicle)
      ensures VehicleIs(c, person, legs, m, VehicleForTrip(c, person, legs, m))
    {
      VehicleFound(c, person, legs, m);
    }
  }

  /** The vehicle for a trip: none off the network, that of the first leg that names one, or else the person's own. */
  ghost predicate VehicleIs(c: Context, person: Person, legs: seq<PlanLeg>, m: Mode, r: Result<Option<VehicleId>, Error>)
  {
    r.Ok? ==>
      && (m !in c.mainModes ==> r.value == None)
      && (forall i: nat :: m in c.mainModes && FirstToName(c, legs, m, i) ==> r.value == legs[i].route.value.generic.vehicle)
      && (m in c.mainModes && (forall i :: 0 <= i < |legs| ==> !NamesVehicle(c, legs[i], m)) ==>
            r.value == Some(person(m)) && person(m) in c.garage)
  }

  lemma {:induction false} VehicleFound(c: Context, person: Person, legs: seq<PlanLeg>, m: Mode)
    ensures VehicleForTrip(c, person, legs, m) == Err(MissingVehicle) <==> NoVehicle(c, person, legs, m)
    ensures VehicleForTrip(c, person, legs, m).Err? ==> VehicleForTrip(c, person, legs, m) == Err(MissingVehicle)
    ensures VehicleIs(c, person, legs, m, VehicleForTrip(c, person, legs, m))
  {
    VehicleIsOfFirst(c, legs, m);
    hide VehicleOfLegs;
    forall i: nat | FirstToName(c, legs, m, i)
      ensures VehicleOfLegs(c, legs, m).Some?
    {
      assert NamesVehicle(c, legs[i], m);
    }
    hide FirstToName, NamesVehicle;
  }

  lemma {:induction false} OneMainMode(legs: seq<PlanLeg>)
    ensures forall m, n :: IsMainMode(legs, m) && IsMainMode(legs, n) ==> m == n
    ensures ResolveMainMode(legs).Err? ==> ResolveMainMode(legs) == Err(NoLegs) || ResolveMainMode(legs) == Err(AmbiguousMainMode)
  {
  }

  lemma {:induction false} TripKnown(c: Context, es: seq<Element>, t: TripSpan)
    requires Known(c, es) && IsTrip(es, t)
    ensures KnownLegs(c, Legs(TripElements(es, t)))
  {
    var trip := TripElements(es, t);
    assert forall k :: 0 <= k < |trip| ==> trip[k] == es[t.origin + 1 + k];
    KnownLegsOf(c, trip);
  }

  /** A plan that needs nothing: all activities have coordinates and all trips are valid. */
  ghost predicate Ready(c: Context, es: seq<Element>)
  {
    && AllLocated(es)
    && forall i :: 0 <= i < |Trips(es)| ==> IsTrip(es, Trips(es)[i]) && Assessed(c, es, Trips(es)[i])
  }

  /** The first n trips need nothing. */
  ghost predicate ReadyUpTo(c: Context, es: seq<Element>, n: nat)
  {
    forall i :: 0 <= i < n && i < |Trips(es)| ==> IsTrip(es, Trips(es)[i]) && Assessed(c, es, Trips(es)[i])
  }

  /** The trips from i on prepared, one after the other, each in the plan that the ones before it left. */
  ghost function TripsPrepared(c: Context, person: Person, es: seq<Element>, i: nat, router: Router): (r: Result<seq<Element>, Failure>)
    requires Known(c, es) && EndsLocated(es) && KeepsTrips(c, router) && i <= |Trips(es)|
    decreases |Trips(es)| - i
  {
    if i == |Trips(es)| then Ok(es)
    else
      TripFacts(c, es, i);
      match TripPrepared(c, person, es, Trips(es)[i], router)
      case Err(e) => Err(Failure(i, e))
      case Ok(None) => TripsPrepared(c, person, es, i + 1, router)
      case Ok(Some(adapted)) =>
        Adapted(c, person, es, i, router, adapted);
        TripsPrepared(c, person, adapted, i + 1, router)
  }

  /** The plan with all coordinates. */
  ghost function AllPlaced(c: Context, plan: seq<Element>): (es: seq<Element>)
    requires Known(c, plan)
    ensures |es| == |plan| && forall i :: 0 <= i < |es| ==> es[i] == Located(c, plan[i])
  {
    seq(|plan|, i requires 0 <= i < |plan| => Located(c, plan[i]))
  }

  /** What preparing a plan comes to: coordinates first, then trip by trip, up to the first that fails. */
  ghost function PlanPrepared(c: Context, person: Person, plan: seq<Element>, router: Router): (r: Result<seq<Element>, Failure>)
    requires Known(c, plan) && KeepsTrips(c, router)
  {
    PlacedFacts(c, plan);
    TripsPrepared(c, person, AllPlaced(c, plan), 0, router)
  }

  lemma {:induction false} TripFacts(c: Context, es: seq<Element>, i: nat)
    requires Known(c, es) && i < |Trips(es)|
    ensures IsTrip(es, Trips(es)[i]) && KnownLegs(c, Legs(TripElements(es, Trips(es)[i])))
  {
    TripsAreTrips(es);
    assert Trips(es)[i] in Trips(es);
    TripKnown(c, es, Trips(es)[i]);
  }

  lemma {:induction false} PlacedFacts(c: Context, plan: seq<Element>)
    requires Known(c, plan)
    ensures var es := AllPlaced(c, plan);
            && Known(c, es) && AllLocated(es) && EndsLocated(es) && Trips(es) == Trips(plan)
            && (AllLocated(plan) ==> es == plan)
  {
    LocatedTrips(c, plan, AllPlaced(c, plan));
    hide KnownRoute, Trips;
  }

  /**
   * Prepares a plan on a working copy. None means that the plan is left as it is. With a router that
   * keeps its contract, a prepared plan is ready, and a plan that is ready is left as it is.
   */
  method PreparePlan(c: Context, person: Person, plan: seq<Element>, router: Router) returns (r: Result<Option<seq<Element>>, Failure>)
    requires Known(c, plan) && KeepsTrips(c, router)
    ensures Done(plan, r) == PlanPrepared(c, person, plan, router)
    ensures r == Ok(None) <==> Ready(c, plan)
    ensures r.Ok? ==> Known(c, After(plan, r)) && |Trips(After(plan, r))| == |Trips(plan)|
    ensures r.Ok? && KeepsContract(c, router) ==> Ready(c, After(plan, r))
  {
    hide Trips, IsTrip, Assessed, Known, KeepsTrips, KeepsContract, ReadyUpTo, Ready, TripsPrepared, TripPrepared, EndsLocated, KnownLegs;
    var working, owned := plan, false;
    NoneYet(c, plan);
    PlacedFacts(c, plan);
    ghost var placed := AllPlaced(c, plan);
    if exists i :: 0 <= i < |plan| && plan[i].Act? && plan[i].act.coord.None? {
      working := AssignActivityCoordinates(c, plan);
      owned := true;
      assert working == placed;
      NoneYet(c, working);
    }
    var spans := GetTripSpans(working);
    for i := 0 to |spans|
      invariant Known(c, working) && EndsLocated(working) && |Trips(working)| == |spans| == |Trips(plan)|
      invariant TripsPrepared(c, person, working, i, router) == TripsPrepared(c, person, placed, 0, router)
      invariant !owned ==> working == plan && ReadyUpTo(c, plan, i) && AllLocated(plan)
      invariant KeepsContract(c, router) ==> ReadyUpTo(c, working, i) && AllLocated(working)
      invariant Ready(c, plan) ==> !owned
    {
      ReadyTrip(c, plan, i);
      var adapted := CheckAndAdaptTrip(c, person, working, i, router);
      NextTrip(c, person, working, i, router);
      match adapted {
        case Err(e) =>
          return Err(Failure(i, e));
        case Ok(None) =>
          OneMoreReady(c, working, i);
        case Ok(Some(es)) =>
          Adapted(c, person, working, i, router, es);
          working, owned := es, true;
      }
    }
    NoMoreTrips(c, person, working, router);
    AllReady(c, working);
    AllReady(c, plan);
    return Ok(if owned then Some(working) else None);
  }

  /** The plan that an outcome leaves, or why there is none. */
  function Done(plan: seq<Element>, outcome: Result<Option<seq<Element>>, Failure>): (r: Result<seq<Element>, Failure>)
  {
    if outcome.Err? then Err(outcome.error) else Ok(After(plan, outcome))
  }

  // ------------------------------------------------------------------ why that is so

  lemma {:induction false} NoneYet(c: Context, es: seq<Element>)
    ensures ReadyUpTo(c, es, 0) && (Ready(c, es) ==> AllLocated(es))
  {
  }

  lemma {:induction false} ReadyTrip(c: Context, es: seq<Element>, i: nat)
    ensures Ready(c, es) && i < |Trips(es)| ==> IsTrip(es, Trips(es)[i]) && Assessed(c, es, Trips(es)[i])
  {
  }

  lemma {:induction false} AllReady(c: Context, es: seq<Element>)
    ensures AllLocated(es) && ReadyUpTo(c, es, |Trips(es)|) ==> Ready(c, es)
  {
  }

  lemma {:induction false} SameMainSameTrips(a: seq<Element>, b: seq<Element>)
    requires |a| == |b| && forall i :: 0 <= i < |a| ==> Main(a[i]) == Main(b[i])
    ensures Trips(a) == Trips(b) && LastMain(a) == LastMain(b)
  {
    if a != [] {
      var n := |a| - 1;
      SameMainSameTrips(a[..n], b[..n]);
    }
  }

  /** Coordinates do not change which trips there are. */
  lemma {:induction false} LocatedTrips(c: Context, plan: seq<Element>, es: seq<Element>)
    requires Known(c, plan) && |es| == |plan| && forall i :: 0 <= i < |es| ==> es[i] == Located(c, plan[i])
    ensures Known(c, es) && Trips(es) == Trips(plan)
  {
    SameMainSameTrips(es, plan);
    hide KnownRoute, Trips;
  }

  lemma {:induction false} OneMoreReady(c: Context, es: seq<Element>, i: nat)
    requires i < |Trips(es)| && IsTrip(es, Trips(es)[i]) && Assessed(c, es, Trips(es)[i])
    ensures ReadyUpTo(c, es, i) ==> ReadyUpTo(c, es, i + 1)
  {
    hide Trips, IsTrip, Assessed;
  }

  /** Replacing trip i keeps the trips before it ready, and makes it ready if the router does what it promises. */
  lemma {:induction false} TripReplaced(c: Context, es: seq<Element>, i: nat, rerouted: seq<Element>)
    requires Known(c, es) && EndsLocated(es) && i < |Trips(es)|
    requires rerouted != [] && NoMain(rerouted) && KnownElements(c, rerouted)
    ensures IsTrip(es, Trips(es)[i])
    ensures var r := Spliced(es, Trips(es)[i], rerouted);
            && Known(c, r) && EndsLocated(r) && |Trips(r)| == |Trips(es)|
            && (AllLocated(es) && AllLocated(rerouted) ==> AllLocated(r))
            && (ReadyUpTo(c, es, i) && KnownLegs(c, Legs(rerouted)) && AssessTrip(c, rerouted) == Ok(Valid) ==> ReadyUpTo(c, r, i + 1))
  {
    TripsAreTrips(es);
    var t := Trips(es)[i];
    assert t in Trips(es);
    var r := Spliced(es, t, rerouted);
    SplicedKnown(c, es, t, rerouted);
    OthersUntouched(es, i, rerouted, i);
    hide Trips, Spliced, KnownLegs, AssessTrip, Legs, IsTrip;
    if ReadyUpTo(c, es, i) && KnownLegs(c, Legs(rerouted)) && AssessTrip(c, rerouted) == Ok(Valid) {
      forall j | 0 <= j < i + 1 && j < |Trips(r)|
        ensures IsTrip(r, Trips(r)[j]) && Assessed(c, r, Trips(r)[j])
      {
        OthersUntouched(es, i, rerouted, j);
        SpanWithin(r, Trips(r)[j]);
      }
    }
  }

  lemma {:induction false} Adapted(c: Context, person: Person, es: seq<Element>, i: nat, router: Router, r: seq<Element>)
    requires Known(c, es) && EndsLocated(es) && i < |Trips(es)| && IsTrip(es, Trips(es)[i]) && KeepsTrips(c, router)
    requires KnownLegs(c, Legs(TripElements(es, Trips(es)[i]))) && TripPrepared(c, person, es, Trips(es)[i], router) == Ok(Some(r))
    ensures Known(c, r) && EndsLocated(r) && |Trips(r)| == |Trips(es)|
    ensures AllLocated(es) && ReadyUpTo(c, es, i) && KeepsContract(c, router) ==> AllLocated(r) && ReadyUpTo(c, r, i + 1)
  {
    hide ReadyUpTo, Known, AllLocated, EndsLocated, KnownElements, NoMain, AssessTrip, KnownLegs, Trips, Spliced, Need;
    var sent := Need(c, person, es, Trips(es)[i]).value.value;
    TripReplaced(c, es, i, router(sent.0, sent.1).value);
  }

  /** What preparing the trips from i on comes to, by what preparing trip i does. */
  lemma {:induction false} NextTrip(c: Context, person: Person, es: seq<Element>, i: nat, router: Router)
    requires Known(c, es) && EndsLocated(es) && KeepsTrips(c, router) && i < |Trips(es)|
    ensures IsTrip(es, Trips(es)[i]) && KnownLegs(c, Legs(TripElements(es, Trips(es)[i])))
    ensures var all := TripsPrepared(c, person, es, i, router);
            match TripPrepared(c, person, es, Trips(es)[i], router)
            case Err(e) => all == Err(Failure(i, e))
            case Ok(None) => all == TripsPrepared(c, person, es, i + 1, router)
            case Ok(Some(adapted)) =>
              Known(c, adapted) && EndsLocated(adapted) && i < |Trips(adapted)| && all == TripsPrepared(c, person, adapted, i + 1, router)
  {
    hide Trips, Known, EndsLocated, KnownLegs, TripPrepared, IsTrip, KeepsTrips;
    TripFacts(c, es, i);
    match TripPrepared(c, person, es, Trips(es)[i], router)
    case Ok(Some(adapted)) => Adapted(c, person, es, i, router, adapted);
    case _ =>
  }

  lemma {:induction false} NoMoreTrips(c: Context, person: Person, es: seq<Element>, router: Router)
    requires Known(c, es) && EndsLocated(es) && KeepsTrips(c, router)
    ensures TripsPrepared(c, person, es, |Trips(es)|, router) == Ok(es)
  {
  }

  lemma {:induction false} SpanWithin(es: seq<Element>, t: TripSpan)
    requires IsTrip(es, t)
    ensures 0 <= t.origin < t.destination < |es|
  {
  }

  lemma {:induction false} SplicedKnown(c: Context, es: seq<Element>, t: TripSpan, rerouted: seq<Element>)
    requires Known(c, es) && EndsLocated(es) && KnownElements(c, rerouted) && NoMain(rerouted)
    requires 0 <= t.origin < t.destination < |es|
    ensures Known(c, Spliced(es, t, rerouted)) && EndsLocated(Spliced(es, t, rerouted))
    ensures AllLocated(es) && AllLocated(rerouted) ==> AllLocated(Spliced(es, t, rerouted))
  {
    var r := Spliced(es, t, rerouted);
    hide Spliced, KnownRoute;
    forall k | 0 <= k < |r|
      ensures r[k].Act? ==> r[k].act.link in c.g.links
      ensures Main(r[k]) ==> r[k].act.coord.Some?
      ensures AllLocated(es) && AllLocated(rerouted) && r[k].Act? ==> r[k].act.coord.Some?
      ensures r[k].Leg? ==> KnownRoute(c, r[k].leg.route)
    {
      SplicedIndex(es, t, rerouted, k);
    }
  }

  // ------------------------------------------------------------------ all plans of a person

  class PersonPlans {
    var plans: seq<seq<Element>>

    constructor (plans: seq<seq<Element>>)
      ensures this.plans == plans
    {
      this.plans := plans;
    }

    /**
     * Prepares every plan first and replaces plans only afterwards. A plan whose preparation fails
     * is untouched and reported, in order, with the trip and the reason; every other plan is what
     * its preparation yields: ready, and touched only if it was not.
     */
    method PreparePerson(c: Context, person: Person, router: Router) returns (issues: seq<(nat, Failure)>)
      requires (forall k :: 0 <= k < |plans| ==> Known(c, plans[k])) && KeepsTrips(c, router)
      modifies this
      ensures |plans| == |old(plans)|
      ensures forall k :: 0 <= k < |plans| ==>
                var r := PlanPrepared(c, person, old(plans)[k], router);
                plans[k] == if r.Ok? then r.value else old(plans)[k]
      ensures issues == Issues(c, person, old(plans), |plans|, router)
      ensures forall k :: 0 <= k < |plans| && Ready(c, old(plans)[k]) ==> plans[k] == old(plans)[k] && !Reported(issues, k)
      ensures forall k :: 0 <= k < |plans| && !Reported(issues, k) && KeepsContract(c, router) ==> Ready(c, plans[k])
    {
      hide Ready, Known, KeepsTrips, KeepsContract, PlanPrepared;
      var outcomes: seq<Result<Option<seq<Element>>, Failure>> := [];
      for k := 0 to |plans|
        invariant plans == old(plans) && |outcomes| == k
        invariant forall j :: 0 <= j < k ==> Outcome(c, person, router, plans[j], outcomes[j])
      {
        var outcome := PreparePlan(c, person, plans[k], router);
        outcomes := outcomes + [outcome];
      }
      issues := [];
      for k := 0 to |outcomes|
        invariant |plans| == |old(plans)| == |outcomes|
        invariant forall j :: 0 <= j < k ==> plans[j] == After(old(plans)[j], outcomes[j]) && (Reported(issues, j) <==> outcomes[j].Err?)
        invariant forall j :: k <= j < |plans| ==> plans[j] == old(plans)[j] && !Reported(issues, j)
        invariant issues == Issues(c, person, old(plans), k, router)
      {
        assert Outcome(c, person, router, old(plans)[k], outcomes[k]);
        match outcomes[k] {
          case Ok(Some(plan)) => plans := plans[k := plan];
          case Ok(None) =>
          case Err(e) =>
            MoreReported(issues, k, e);
            issues := issues + [(k, e)];
        }
      }
    }
  }

  /** Which of the first n plans cannot be prepared, and why, in order. */
  ghost function Issues(c: Context, person: Person, plans: seq<seq<Element>>, n: nat, router: Router): (r: seq<(nat, Failure)>)
    requires n <= |plans| && (forall k :: 0 <= k < |plans| ==> Known(c, plans[k])) && KeepsTrips(c, router)
  {
    if n == 0 then []
    else
      var last := PlanPrepared(c, person, plans[n - 1], router);
      Issues(c, person, plans, n - 1, router) + (if last.Err? then [(n - 1, last.error)] else [])
  }

  ghost predicate Reported(issues: seq<(nat, Failure)>, k: nat)
  {
    exists i :: 0 <= i < |issues| && issues[i].0 == k
  }

  lemma {:induction false} MoreReported(issues: seq<(nat, Failure)>, k: nat, e: Failure)
    ensures forall j: nat :: Reported(issues + [(k, e)], j) <==> Reported(issues, j) || j == k
  {
    var more := issues + [(k, e)];
    assert more[|issues|].0 == k;
    forall j: nat | Reported(issues, j)
      ensures Reported(more, j)
    {
      var i :| 0 <= i < |issues| && issues[i].0 == j;
      assert more[i].0 == j;
    }
  }

  /** The plan once an outcome is put in place. */
  function After(plan: seq<Element>, outcome: Result<Option<seq<Element>>, Failure>): (r: seq<Element>)
  {
    if outcome.Ok? && outcome.value.Some? then outcome.value.value else plan
  }

  ghost predicate Outcome(c: Context, person: Person, router: Router, plan: seq<Element>, r: Result<Option<seq<Element>>, Failure>)
  {
    && Known(c, plan) && KeepsTrips(c, router) && Done(plan, r) == PlanPrepared(c, person, plan, router)
    && (r == Ok(None) <==> Ready(c, plan))
    && (r.Ok? && KeepsContract(c, router) ==> Ready(c, After(plan, r)))
  }
}
