/** No agent is lost and none is doubled, from the split of the population to the final drain. */
module Conservation {
  import opened Basics
  import opened RoadNetwork
  import opened Links
  import opened Totals
  import opened NetSpec
  import NetInvariant
  import opened System

  function TeleIds(ts: seq<Teleporter>): (r: multiset<nat>)
  {
    if ts == [] then multiset{} else multiset{ts[0].id} + TeleIds(ts[1..])
  }

  function PacketIds(k: Packet): (r: multiset<nat>)
  {
    match k
    case Veh(v) => multiset{v.id}
    case Update(_) => multiset{}
    case Tele(t) => multiset{t.id}
  }

  function FlightIds(ks: seq<Packet>): (r: multiset<nat>)
  {
    if ks == [] then multiset{} else PacketIds(ks[0]) + FlightIds(ks[1..])
  }

  lemma {:induction false} TeleIdsConcat(a: seq<Teleporter>, b: seq<Teleporter>)
    ensures TeleIds(a + b) == TeleIds(a) + TeleIds(b)
  {
    if a == [] {
      assert a + b == b;
    } else {
      assert (a + b)[1..] == a[1..] + b;
      TeleIdsConcat(a[1..], b);
    }
  }

  lemma {:induction false} FlightIdsConcat(a: seq<Packet>, b: seq<Packet>)
    ensures FlightIds(a + b) == FlightIds(a) + FlightIds(b)
  {
    if a == [] {
      assert a + b == b;
    } else {
      assert (a + b)[1..] == a[1..] + b;
      FlightIdsConcat(a[1..], b);
    }
  }

  lemma {:induction false} TeleIdsOne(t: Teleporter)
    ensures TeleIds([t]) == multiset{t.id}
  {
    assert TeleIds([t]) == multiset{t.id} + TeleIds([t][1..]);
  }

  lemma {:induction false} FlightIdsOne(k: Packet)
    ensures FlightIds([k]) == PacketIds(k)
  {
    assert FlightIds([k]) == PacketIds(k) + FlightIds([k][1..]);
  }

  lemma {:induction false} TeleIdsRemove(ts: seq<Teleporter>, i: nat)
    requires i < |ts|
    ensures TeleIds(ts) == TeleIds(ts[..i] + ts[i + 1..]) + multiset{ts[i].id}
  {
    hide TeleIds;
    assert ts == ts[..i] + ([ts[i]] + ts[i + 1..]);
    TeleIdsConcat(ts[..i], [ts[i]] + ts[i + 1..]);
    TeleIdsConcat([ts[i]], ts[i + 1..]);
    TeleIdsConcat(ts[..i], ts[i + 1..]);
    TeleIdsOne(ts[i]);
  }

  lemma {:induction false} FlightIdsRemove(ks: seq<Packet>, i: nat)
    requires i < |ks|
    ensures FlightIds(ks) == FlightIds(Removed(ks, i)) + PacketIds(ks[i])
  {
    hide FlightIds, PacketIds;
    assert ks == ks[..i] + ([ks[i]] + ks[i + 1..]);
    FlightIdsConcat(ks[..i], [ks[i]] + ks[i + 1..]);
    FlightIdsConcat([ks[i]], ks[i + 1..]);
    FlightIdsConcat(ks[..i], ks[i + 1..]);
    FlightIdsOne(ks[i]);
  }

  lemma {:induction false} FlightIdsOfVehicles(vs: seq<Vehicle>)
    ensures FlightIds(AsPackets(vs)) == Ids(vs)
  {
    if vs != [] {
      assert AsPackets(vs)[1..] == AsPackets(vs[1..]);
      FlightIdsOfVehicles(vs[1..]);
    }
  }

  lemma {:induction false} FlightIdsOfUpdates(us: seq<StorageUpdate>)
    ensures FlightIds(AsUpdates(us)) == multiset{}
  {
    if us != [] {
      assert AsUpdates(us)[1..] == AsUpdates(us[1..]);
      FlightIdsOfUpdates(us[1..]);
    }
  }

  // ------------------------------------------------------------------ everyone

  /** The agents in the hands of one process: what it would drain now. */
  ghost function Present(ps: PartState): (r: multiset<nat>)
  {
    ps.idle + TeleIds(ps.tele) + NetInvariant.OnNet(ps.net)
  }

  ghost function PresentMap(s: Sys): (r: map<nat, multiset<nat>>)
  {
    map q | q in s.parts :: Present(s.parts[q])
  }

  /** What draining every process yields. */
  ghost function Drained(s: Sys): (r: multiset<nat>)
  {
    Total(PresentMap(s))
  }

  ghost function Everyone(s: Sys): (r: multiset<nat>)
  {
    Drained(s) + FlightIds(s.flight)
  }

  /** Only process q and the flight change, and between them they keep their agents. */
  lemma {:induction false} EveryoneKept(s: Sys, r: Sys, q: Part)
    requires q in s.parts && q in r.parts && r.parts == s.parts[q := r.parts[q]]
    requires Present(r.parts[q]) + FlightIds(r.flight) == Present(s.parts[q]) + FlightIds(s.flight)
    ensures Everyone(r) == Everyone(s)
  {
    hide Present, FlightIds, Total;
    assert PresentMap(r) == PresentMap(s)[q := Present(r.parts[q])];
    TotalUpdate(PresentMap(s), q, Present(r.parts[q]));
    Balance(Drained(s), Drained(r), Present(s.parts[q]), Present(r.parts[q]), FlightIds(s.flight), FlightIds(r.flight));
  }

  lemma {:induction false} Balance(a: multiset<nat>, b: multiset<nat>, x: multiset<nat>, y: multiset<nat>,
                                   f: multiset<nat>, g: multiset<nat>)
    requires b + x == a + y && y + g == x + f
    ensures b + g == a + f
  {
    forall i
      ensures (b + g)[i] == (a + f)[i]
    {
      assert (b + x)[i] == (a + y)[i] && (y + g)[i] == (x + f)[i];
    }
  }

  lemma {:induction false} ActConserves(w: World, p: real, s: Sys, q: Part, a: NetAction)
    requires Ok(w, p, s) && CanAct(w, p, s, Act(q, a))
    ensures Everyone(Step(w, p, s, Act(q, a))) == Everyone(s)
  {
    hide NetInvariant.Inv, PartsOk, FlightOk, ValidWorld, Apply, Enabled, Exits, Ends, Releases, Ids, TeleIds, FlightIds;
    hide NetInvariant.OnNet, Everyone;
    var x, net := Ctx(w, q), s.parts[q].net;
    NetOf(w, p, s, q);
    NetInvariant.ApplyKeepsInv(x, p, net, a);
    var exits, us := Exits(x, net, a), Releases(x, net, a);
    FlightIdsConcat(s.flight, Packets(x, net, a));
    FlightIdsConcat(AsPackets(exits), AsUpdates(us));
    FlightIdsOfVehicles(exits);
    FlightIdsOfUpdates(us);
    var r := Step(w, p, s, Act(q, a));
    ActBalance(s.parts[q].idle, TeleIds(s.parts[q].tele), NetInvariant.OnNet(net), NetInvariant.OnNet(r.parts[q].net),
               Ids(exits), Ids(Ends(x, net, a)), FlightIds(s.flight));
    EveryoneKept(s, r, q);
  }

  lemma {:induction false} ActBalance(idle: multiset<nat>, tele: multiset<nat>, n0: multiset<nat>, n1: multiset<nat>,
                                      exits: multiset<nat>, ends: multiset<nat>, f: multiset<nat>)
    requires n0 + multiset{} == n1 + exits + ends
    ensures idle + ends + tele + n1 + (f + (exits + multiset{})) == idle + tele + n0 + f
  {
    forall i
      ensures (idle + ends + tele + n1 + (f + (exits + multiset{})))[i] == (idle + tele + n0 + f)[i]
    {
      assert (n0 + multiset{})[i] == (n1 + exits + ends)[i];
    }
  }

  lemma {:induction false} DepartConserves(w: World, p: real, s: Sys, q: Part, v: Vehicle)
    requires Ok(w, p, s) && CanAct(w, p, s, Depart(q, v))
    ensures Everyone(Step(w, p, s, Depart(q, v))) == Everyone(s)
  {
    DepartKeepsOk(w, p, s, q, v);
    hide NetInvariant.Inv, PartsOk, FlightOk, ValidWorld, Apply, Enabled, NetInvariant.Placed, TeleIds, FlightIds;
    hide NetInvariant.OnNet, NetInvariant.Sound, Everyone;
    var x, net := Ctx(w, q), s.parts[q].net;
    NetOf(w, p, s, q);
    NetInvariant.ApplyKeepsInv(x, p, net, Begin(v));
    NetInvariant.NoOff(x, net, Begin(v));
    var r := Step(w, p, s, Depart(q, v));
    DepartBalance(s.parts[q].idle, TeleIds(s.parts[q].tele), NetInvariant.OnNet(net),
                  NetInvariant.OnNet(r.parts[q].net), v.id);
    EveryoneKept(s, r, q);
  }

  lemma {:induction false} DepartBalance(idle: multiset<nat>, tele: multiset<nat>, n0: multiset<nat>, n1: multiset<nat>, v: nat)
    requires v in idle && n0 + multiset{v} == n1 + multiset{} + multiset{}
    ensures idle - multiset{v} + tele + n1 == idle + tele + n0
  {
    forall i
      ensures (idle - multiset{v} + tele + n1)[i] == (idle + tele + n0)[i]
    {
      assert (n0 + multiset{v})[i] == (n1 + multiset{} + multiset{})[i];
    }
  }

  lemma {:induction false} DepartTeleConserves(w: World, p: real, s: Sys, q: Part, t: Teleporter)
    requires CanAct(w, p, s, DepartTele(q, t))
    ensures Everyone(Step(w, p, s, DepartTele(q, t))) == Everyone(s)
  {
    hide NetInvariant.OnNet, Everyone, TeleIds, FlightIds;
    var ps := s.parts[q];
    var r := Step(w, p, s, DepartTele(q, t));
    TeleIdsConcat(ps.tele, [t]);
    TeleIdsOne(t);
    FlightIdsConcat(s.flight, [Tele(t)]);
    FlightIdsOne(Tele(t));
    assert s.flight + [] == s.flight;
    var n, f, ts := NetInvariant.OnNet(ps.net), FlightIds(s.flight), TeleIds(ps.tele);
    assert ps.idle - multiset{t.id} + (ts + multiset{t.id}) + n + f == ps.idle + ts + n + f;
    assert ps.idle - multiset{t.id} + ts + n + (f + multiset{t.id}) == ps.idle + ts + n + f;
    EveryoneKept(s, r, q);
  }

  lemma {:induction false} TeleArriveConserves(w: World, p: real, s: Sys, q: Part, i: nat)
    requires CanAct(w, p, s, TeleArrive(q, i))
    ensures Everyone(Step(w, p, s, TeleArrive(q, i))) == Everyone(s)
  {
    hide NetInvariant.OnNet, Everyone, TeleIds, FlightIds;
    var ps := s.parts[q];
    var r := Step(w, p, s, TeleArrive(q, i));
    TeleIdsRemove(ps.tele, i);
    var n, ts, one := NetInvariant.OnNet(ps.net), TeleIds(ps.tele[..i] + ps.tele[i + 1..]), multiset{ps.tele[i].id};
    assert ps.idle + one + ts + n == ps.idle + (ts + one) + n;
    EveryoneKept(s, r, q);
  }

  lemma {:induction false} DeliveredPresent(w: World, p: real, s: Sys, k: Packet, now: Tick)
    requires Ok(w, p, s) && PacketOk(w, p, k)
    ensures Destination(w.g, k).Some? && Destination(w.g, k).value in s.parts
    ensures var q := Destination(w.g, k).value;
            Present(DeliverTo(w, s, q, k, now).0) == Present(s.parts[q]) + PacketIds(k)
  {
    hide Ok, NetInvariant.OnNet, TeleIds, NetInvariant.Placed, NetInvariant.Sound, NetInvariant.Inv, Apply, Enabled;
    PacketDeliverable(w, p, s, k, now);
    var q := Destination(w.g, k).value;
    var ps := s.parts[q];
    NetOf(w, p, s, q);
    var i, ts, n := ps.idle, TeleIds(ps.tele), NetInvariant.OnNet(ps.net);
    match k
    case Veh(v) =>
      NetInvariant.ApplyKeepsInv(Ctx(w, q), p, ps.net, Receive(v, now));
      NetInvariant.NoOff(Ctx(w, q), ps.net, Receive(v, now));
      assert n + multiset{v.id} == NetInvariant.OnNet(Apply(Ctx(w, q), ps.net, Receive(v, now))) + multiset{} + multiset{};
      assert i + ts + (n + multiset{v.id}) == i + ts + n + multiset{v.id};
    case Update(u) =>
      assert NetInvariant.Sound(Ctx(w, q), p, Credit(u.link, u.released)) by {
        CreditIsSound(Ctx(w, q), p, u.link, u.released);
      }
      NetInvariant.ApplyKeepsInv(Ctx(w, q), p, ps.net, Credit(u.link, u.released));
      NetInvariant.NoOff(Ctx(w, q), ps.net, Credit(u.link, u.released));
      var n1 := NetInvariant.OnNet(Apply(Ctx(w, q), ps.net, Credit(u.link, u.released)));
      assert n == n + multiset{};
      assert n1 == n1 + multiset{} + multiset{};
      assert i + ts + n + multiset{} == i + ts + n1;
    case Tele(t) =>
      TeleIdsConcat(ps.tele, [t]);
      TeleIdsOne(t);
      assert i + (ts + multiset{t.id}) + n == i + ts + n + multiset{t.id};
  }

  lemma {:induction false} CreditIsSound(x: Context, p: real, l: LinkId, released: real)
    ensures NetInvariant.Sound(x, p, Credit(l, released))
  {
  }

  lemma {:induction false} DeliverConserves(w: World, p: real, s: Sys, i: nat, now: Tick)
    requires Ok(w, p, s) && i < |s.flight|
    ensures Everyone(Step(w, p, s, Deliver(i, now))) == Everyone(s)
  {
    hide Ok, PacketOk, DeliverTo, Step, Destination, Present, FlightIds, PacketIds, Everyone;
    var k := s.flight[i];
    DeliverStep(w, p, s, i, now);
    DeliveredPresent(w, p, s, k, now);
    FlightIdsRemove(s.flight, i);
    var q := Destination(w.g, k).value;
    var a, f, one := Present(s.parts[q]), FlightIds(Removed(s.flight, i)), PacketIds(k);
    assert a + one + f == a + (f + one);
    EveryoneKept(s, Step(w, p, s, Deliver(i, now)), q);
  }

  lemma {:induction false} StepConserves(w: World, p: real, s: Sys, act: SysAction)
    requires Ok(w, p, s)
    ensures Everyone(Step(w, p, s, act)) == Everyone(s)
  {
    if CanAct(w, p, s, act) {
      match act
      case Depart(q, v) => DepartConserves(w, p, s, q, v);
      case DepartTele(q, t) => DepartTeleConserves(w, p, s, q, t);
      case TeleArrive(q, i) => TeleArriveConserves(w, p, s, q, i);
      case Act(q, a) => ActConserves(w, p, s, q, a);
      case Deliver(i, now) => DeliverConserves(w, p, s, i, now);
    }
  }

  /** Whatever happens in a run, every agent is with exactly one process or in flight. */
  lemma {:induction false} RunConserves(w: World, p: real, s: Sys, acts: seq<SysAction>)
    requires Ok(w, p, s)
    ensures Everyone(RunAll(w, p, s, acts)) == Everyone(s)
  {
    if acts != [] {
      var front := acts[..|acts| - 1];
      RunConserves(w, p, s, front);
      RunKeepsOk(w, p, s, front);
      StepConserves(w, p, RunAll(w, p, s, front), acts[|acts| - 1]);
    }
  }

  // ------------------------------------------------------------------ the population

  /** Persons, by id, with the link of their first activity. */
  type Population = map<nat, LinkId>

  predicate StartsWithin(persons: Population, g: RoadNet, numParts: nat)
  {
    forall i :: i in persons ==> persons[i] in g.links && g.links[persons[i]].part < numParts
  }

  /** The persons whose first activity is on a link of partition q. */
  function StartingIn(persons: Population, g: RoadNet, q: Part): (r: Population)
    requires forall i :: i in persons ==> persons[i] in g.links
  {
    map i | i in persons && g.links[persons[i]].part == q :: persons[i]
  }

  method SplitByStartLinkPartition(persons: Population, g: RoadNet, numParts: nat) returns (parts: seq<Population>)
    requires StartsWithin(persons, g, numParts)
    ensures |parts| == numParts
    ensures forall q :: 0 <= q < numParts ==> parts[q] == StartingIn(persons, g, q)
  {
    parts := seq(numParts, _ => map[]);
    var todo := persons.Keys;
    while todo != {}
      invariant todo <= persons.Keys && |parts| == numParts
      invariant forall q :: 0 <= q < numParts ==>
        parts[q] == map i | i in persons && i !in todo && g.links[persons[i]].part == q :: persons[i]
      decreases todo
    {
      var i :| i in todo;
      var q := g.links[persons[i]].part;
      parts := parts[q := parts[q][i := persons[i]]];
      todo := todo - {i};
    }
  }

  ghost predicate StartedFrom(w: World, s: Sys, persons: Population)
  {
    && (forall i :: i in persons ==> persons[i] in w.g.links && w.g.links[persons[i]].part in s.parts)
    && (forall q :: q in s.parts ==> s.parts[q].idle == multiset(StartingIn(persons, w.g, q).Keys))
  }

  lemma {:induction false} TotalCount(m: map<nat, multiset<nat>>, x: nat, k: nat)
    requires forall j :: j in m && j != k ==> m[j][x] == 0
    ensures Total(m)[x] == if k in m then m[k][x] else 0
  {
    if k in m {
      TotalRemove(m, k);
      TotalCount(m - {k}, x, k);
    } else if m != map[] {
      var j :| j in m;
      TotalRemove(m, j);
      TotalCount(m - {j}, x, k);
    }
  }

  lemma {:induction false} EveryoneAtStart(w: World, p: real, s: Sys, persons: Population)
    requires ValidWorld(w) && p > 0.0 && Initial(w, s) && StartedFrom(w, s, persons)
    ensures Everyone(s) == multiset(persons.Keys)
  {
    forall q | q in s.parts
      ensures PresentMap(s)[q] == multiset(StartingIn(persons, w.g, q).Keys)
    {
      PresentAtStart(w, s, persons, q);
    }
    TotalAtStart(w.g, PresentMap(s), persons);
    assert FlightIds(s.flight) == multiset{};
  }

  lemma {:induction false} PresentAtStart(w: World, s: Sys, persons: Population, q: Part)
    requires ValidWorld(w) && Initial(w, s) && StartedFrom(w, s, persons) && q in s.parts
    ensures Present(s.parts[q]) == multiset(StartingIn(persons, w.g, q).Keys)
  {
    EmptyNet(Ctx(w, q));
    hide NetInvariant.OnNet, FromNetwork, ValidWorld;
    assert TeleIds(s.parts[q].tele) == multiset{};
  }

  lemma {:induction false} TotalAtStart(g: RoadNet, m: map<nat, multiset<nat>>, persons: Population)
    requires forall i :: i in persons ==> persons[i] in g.links && g.links[persons[i]].part in m
    requires forall q :: q in m ==> m[q] == multiset(StartingIn(persons, g, q).Keys)
    ensures Total(m) == multiset(persons.Keys)
  {
    hide Total;
    forall x
      ensures Total(m)[x] == multiset(persons.Keys)[x]
    {
      if x in persons {
        TotalCount(m, x, g.links[persons[x]].part);
      } else {
        TotalCount(m, x, 0);
      }
    }
  }

  lemma {:induction false} EmptyNet(x: Context)
    requires ValidContext(x)
    ensures NetInvariant.OnNet(FromNetwork(x)) == multiset{}
  {
    var net := FromNetwork(x);
    forall l | l in net.links
      ensures NetInvariant.IdMap(net.links)[l] == multiset{}
    {
      assert Contents(net.links[l]) == [];
    }
    TotalOfEmpties(NetInvariant.IdMap(net.links));
  }

  /**
   * Conservation over a whole run: the agents drained from all processes, together with those
   * still in flight, are exactly the input population, each once; once every packet has been
   * delivered, the drained agents alone are.
   */
  lemma {:induction false} DrainedIsPopulation(w: World, p: real, s: Sys, persons: Population, acts: seq<SysAction>)
    requires ValidWorld(w) && p > 0.0 && Initial(w, s) && StartedFrom(w, s, persons)
    ensures var r := RunAll(w, p, s, acts);
            && Drained(r) + FlightIds(r.flight) == multiset(persons.Keys)
            && (Drained(r) == multiset(persons.Keys) <==> forall k :: k in r.flight ==> k.Update?)
  {
    InitialOk(w, p, s);
    EveryoneAtStart(w, p, s, persons);
    RunConserves(w, p, s, acts);
    var r := RunAll(w, p, s, acts);
    NobodyInFlight(r.flight);
    hide Drained, FlightIds, RunAll, Initial, ValidWorld, StartedFrom;
    if Drained(r) == multiset(persons.Keys) {
      assert |Drained(r) + FlightIds(r.flight)| == |Drained(r)| + |FlightIds(r.flight)|;
      assert FlightIds(r.flight) == multiset{};
    }
  }

  lemma {:induction false} NobodyInFlight(ks: seq<Packet>)
    ensures FlightIds(ks) == multiset{} <==> forall k :: k in ks ==> k.Update?
  {
    if ks != [] {
      var a, rest := PacketIds(ks[0]), FlightIds(ks[1..]);
      NobodyInFlight(ks[1..]);
      assert ks == [ks[0]] + ks[1..];
      assert FlightIds(ks) == a + rest;
      assert |a + rest| == |a| + |rest|;
      assert a == multiset{} <==> ks[0].Update?;
      assert (forall k :: k in ks ==> k.Update?) <==> ks[0].Update? && forall k :: k in ks[1..] ==> k.Update?;
    }
  }

  // ------------------------------------------------------------------ teleported journeys

  /**
   * The partition a teleported vehicle is sent to next after it was received n + 1 times, the
   * first time by q; None once it was queued. Every partition has other vehicles, ps, already.
   */
  ghost function Hop(g: RoadNet, q: Part, ps: PartState, t: Teleporter, n: nat): (r: Option<Part>)
    requires t.end in g.links && t.last in g.links
    decreases n
  {
    var sent := TeleReceive(g, q, ps, t).1;
    if sent != [Tele(t)] then None
    else
      var next := Destination(g, sent[0]);
      if n == 0 || next.None? then next else Hop(g, next.value, ps, t, n - 1)
  }

  /**
   * A teleported vehicle is ever queued if and only if its leg ends in the partition where it
   * departs or its last route link lies in the partition of its end link; and then it is queued
   * after crossing at most one border. Otherwise it is sent on forever.
   */
  lemma {:induction false} TeleportArrives(g: RoadNet, q: Part, ps: PartState, t: Teleporter)
    requires t.end in g.links && t.last in g.links
    ensures (exists n: nat :: Hop(g, q, ps, t, n).None?) <==>
            g.links[t.end].part == q || g.links[t.last].part == g.links[t.end].part
    ensures (exists n: nat :: Hop(g, q, ps, t, n).None?) ==> Hop(g, q, ps, t, 1).None?
  {
    assert Hop(g, q, ps, t, 1).None? <==>
           g.links[t.end].part == q || g.links[t.last].part == g.links[t.end].part;
    if n: nat :| Hop(g, q, ps, t, n).None? {
      if g.links[t.end].part != q && g.links[t.last].part != g.links[t.end].part {
        NeverQueued(g, q, ps, t, n);
      }
    }
  }

  lemma {:induction false} NeverQueued(g: RoadNet, q: Part, ps: PartState, t: Teleporter, n: nat)
    requires t.end in g.links && t.last in g.links
    requires g.links[t.end].part != q && g.links[t.last].part != g.links[t.end].part
    ensures Hop(g, q, ps, t, n) == Some(g.links[t.last].part)
    decreases n
  {
    if n > 0 {
      NeverQueued(g, g.links[t.last].part, ps, t, n - 1);
    }
  }

  /** Node q is partition q, for three partitions, and link q leads to node q. */
  function ThreeParts(): (g: RoadNet)
  {
    RoadNet(
      map[0 := Node([0], [1], 0), 1 := Node([1], [2], 1), 2 := Node([2], [0], 2)],
      map[0 := NetLink(2, 0, 1.0, 1.0, 1.0, 1.0, 0), 1 := NetLink(0, 1, 1.0, 1.0, 1.0, 1.0, 1), 2 := NetLink(1, 2, 1.0, 1.0, 1.0, 1.0, 2)])
  }

  /**
   * A vehicle that departs in partition 0, whose route's last link is in partition 1 and whose leg
   * ends on a link of partition 2, is sent to partition 1 whenever it is received, and never queued.
   */
  lemma {:induction false} ForwardedForever(id: nat, ps: PartState, n: nat)
    ensures Wired(ThreeParts()) && OwnedByToNode(ThreeParts())
    ensures Hop(ThreeParts(), 0, ps, Teleporter(id, 1, 2), n) == Some(1)
  {
    hide Wired, Hop;
    ThreePartsWired();
    NeverQueued(ThreeParts(), 0, ps, Teleporter(id, 1, 2), n);
  }

  lemma {:induction false} ThreePartsWired()
    ensures Wired(ThreeParts())
  {
    var g := ThreeParts();
    hide NodeWired;
    ThreeNodesWired(0);
    ThreeNodesWired(1);
    ThreeNodesWired(2);
    assert forall b :: b in g.nodes ==> b == 0 || b == 1 || b == 2;
  }

  lemma {:induction false} ThreeNodesWired(b: NodeId)
    requires b < 3
    ensures b in ThreeParts().nodes && NodeWired(ThreeParts(), b)
  {
  }
}
