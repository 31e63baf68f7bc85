/**
 * One tick of all processes, in which each works on its own and then takes in what the others have
 * sent, also in this very tick, is a sequence of actions of the whole system. So the accounts and
 * bounds that hold in every run of the system hold for processes that work tick by tick.
 */
module SystemTicks {
  import opened Basics
  import opened RoadNetwork
  import opened Totals
  import opened NetSpec
  import opened System
  import opened Conservation
  import NetInvariant
  import Ledger
  import Partition
  import opened LegEngines

  // ------------------------------------------------------------------ the partition's own work

  /** All packets that a run of the partition sends. */
  ghost function AllPackets(x: Context, net: NetState, acts: seq<NetAction>): (r: seq<Packet>)
  {
    if acts == [] then [] else
    var front := acts[..|acts| - 1];
    AllPackets(x, net, front) + Packets(x, Run(x, net, front), acts[|acts| - 1])
  }

  ghost function AsWork(q: Part, acts: seq<NetAction>): (r: seq<SysAction>)
    ensures |r| == |acts| && forall i :: 0 <= i < |acts| ==> r[i] == Act(q, acts[i])
  {
    seq(|acts|, i requires 0 <= i < |acts| => Act(q, acts[i]))
  }

  lemma {:induction false} WorkIsSystemRun(w: World, p: real, s: Sys, q: Part, acts: seq<NetAction>)
    requires q in s.parts && Legal(Ctx(w, q), s.parts[q].net, acts) && forall a :: a in acts ==> Works(a)
    ensures var x, ps := Ctx(w, q), s.parts[q];
            RunAll(w, p, s, AsWork(q, acts)) ==
            Sys(s.parts[q := PartState(Run(x, ps.net, acts), ps.idle + Ids(RunEnds(x, ps.net, acts)), ps.tele)],
                s.flight + AllPackets(x, ps.net, acts))
  {
    hide Apply, Enabled, Ends, Packets, Ids, Works, RunAll, AsWork;
    var x, ps := Ctx(w, q), s.parts[q];
    if acts == [] {
      NoWork(w, p, s, q);
    } else {
      var n := |acts| - 1;
      var front, a := acts[..n], acts[n];
      assert a in acts && forall b :: b in front ==> b in acts;
      WorkIsSystemRun(w, p, s, q, front);
      LastWork(q, acts);
      RunAllSnoc(w, p, s, AsWork(q, front), Act(q, a));
      var mid := Run(x, ps.net, front);
      IdsConcat(RunEnds(x, ps.net, front), Ends(x, mid, a));
      assert ps.idle + Ids(RunEnds(x, ps.net, front)) + Ids(Ends(x, mid, a)) == ps.idle + (Ids(RunEnds(x, ps.net, front)) + Ids(Ends(x, mid, a)));
      assert s.flight + AllPackets(x, ps.net, front) + Packets(x, mid, a) == s.flight + (AllPackets(x, ps.net, front) + Packets(x, mid, a));
    }
  }

  lemma {:induction false} NoWork(w: World, p: real, s: Sys, q: Part)
    requires q in s.parts
    ensures var x, ps := Ctx(w, q), s.parts[q];
            RunAll(w, p, s, AsWork(q, [])) ==
            Sys(s.parts[q := PartState(Run(x, ps.net, []), ps.idle + Ids(RunEnds(x, ps.net, [])), ps.tele)],
                s.flight + AllPackets(x, ps.net, []))
  {
    var ps := s.parts[q];
    NetInvariant.NoIds();
    assert s.parts[q := ps] == s.parts && s.flight + [] == s.flight && ps.idle + multiset{} == ps.idle;
  }

  lemma {:induction false} LastWork(q: Part, acts: seq<NetAction>)
    requires acts != []
    ensures AsWork(q, acts) == AsWork(q, acts[..|acts| - 1]) + [Act(q, acts[|acts| - 1])]
  {
  }

  // ------------------------------------------------------------------ departures

  ghost function AsDeparts(q: Part, vs: seq<Vehicle>): (r: seq<SysAction>)
    ensures |r| == |vs| && forall i :: 0 <= i < |vs| ==> r[i] == Depart(q, vs[i])
  {
    seq(|vs|, i requires 0 <= i < |vs| => Depart(q, vs[i]))
  }

  /** A vehicle with which a leg may begin in partition q. */
  ghost predicate MayDepart(w: World, p: real, q: Part, v: Vehicle)
  {
    && v.pos < |v.route| && NetInvariant.Placed(w.g, v.route[v.pos], v) && 0.0 < v.pce <= p
    && w.g.links[v.route[v.pos]].part == q
  }

  /** Process q after the vehicles vs have departed. */
  ghost function Departed(w: World, s: Sys, q: Part, vs: seq<Vehicle>, now: Tick): (r: Sys)
    requires q in s.parts
  {
    var ps := s.parts[q];
    s.(parts := s.parts[q := PartState(Run(Ctx(w, q), ps.net, Partition.Sends(vs, true, now)), ps.idle - Ids(vs), ps.tele)])
  }

  lemma {:induction false} DepartsAreSystemRun(w: World, p: real, s: Sys, q: Part, vs: seq<Vehicle>, now: Tick)
    requires q in s.parts && Ids(vs) <= s.parts[q].idle && forall v :: v in vs ==> MayDepart(w, p, q, v)
    ensures RunAll(w, p, s, AsDeparts(q, vs)) == Departed(w, s, q, vs, now)
  {
    hide MayDepart, Departed, RunAll, Step, Ids;
    if vs == [] {
      NobodyDeparts(w, p, s, q, now);
    } else {
      var n := |vs| - 1;
      var front, v := vs[..n], vs[n];
      assert vs == front + [v] && v in vs && forall u :: u in front ==> u in vs;
      NetInvariant.IdsSnoc(front, v);
      TakeOut(s.parts[q].idle, Ids(front), multiset{v.id}, v.id);
      DepartsAreSystemRun(w, p, s, q, front, now);
      assert AsDeparts(q, vs) == AsDeparts(q, front) + [Depart(q, v)];
      RunAllSnoc(w, p, s, AsDeparts(q, front), Depart(q, v));
      OneDeparts(w, p, s, q, front, v, now);
    }
  }

  lemma {:induction false} NobodyDeparts(w: World, p: real, s: Sys, q: Part, now: Tick)
    requires q in s.parts
    ensures RunAll(w, p, s, AsDeparts(q, [])) == Departed(w, s, q, [], now)
  {
    var ps := s.parts[q];
    assert s.parts[q := ps] == s.parts && ps.idle - multiset{} == ps.idle;
  }

  lemma {:induction false} OneDeparts(w: World, p: real, s: Sys, q: Part, front: seq<Vehicle>, v: Vehicle, now: Tick)
    requires q in s.parts && MayDepart(w, p, q, v) && Ids(front) <= s.parts[q].idle && v.id in s.parts[q].idle - Ids(front)
    requires Ids(front + [v]) == Ids(front) + multiset{v.id}
    requires s.parts[q].idle - Ids(front) - multiset{v.id} == s.parts[q].idle - (Ids(front) + multiset{v.id})
    ensures Step(w, p, Departed(w, s, q, front, now), Depart(q, v)) == Departed(w, s, q, front + [v], now)
  {
    hide Ids, Apply, Run, NetInvariant.Placed, Partition.Sends;
    OneMoreSend(front, v, now);
    RunSnoc(Ctx(w, q), s.parts[q].net, Partition.Sends(front, true, now), Begin(v));
  }

  lemma {:induction false} OneMoreSend(front: seq<Vehicle>, v: Vehicle, now: Tick)
    ensures Partition.Sends(front + [v], true, now) == Partition.Sends(front, true, now) + [Begin(v)]
  {
  }

  lemma {:induction false} TakeOut(idle: multiset<nat>, a: multiset<nat>, b: multiset<nat>, id: nat)
    requires a + b <= idle && b == multiset{id}
    ensures a <= idle && id in idle - a && idle - a - b == idle - (a + b)
  {
    forall y: nat
      ensures a[y] <= idle[y]
    {
      assert (a + b)[y] <= idle[y];
    }
    assert (a + b)[id] <= idle[id];
  }

  // ------------------------------------------------------------------ teleported legs

  /** A teleported leg that is not sent on forever. */
  ghost predicate MayRide(w: World, t: Teleporter)
  {
    t.last in w.g.links && t.end in w.g.links && w.g.links[t.last].part == w.g.links[t.end].part
  }

  ghost function AsRides(q: Part, ts: seq<Teleporter>): (r: seq<SysAction>)
    ensures |r| == |ts| && forall i :: 0 <= i < |ts| ==> r[i] == DepartTele(q, ts[i])
  {
    seq(|ts|, i requires 0 <= i < |ts| => DepartTele(q, ts[i]))
  }

  function AsTeles(ts: seq<Teleporter>): (r: seq<Packet>)
    ensures |r| == |ts| && forall i :: 0 <= i < |ts| ==> r[i] == Tele(ts[i])
  {
    seq(|ts|, i requires 0 <= i < |ts| => Tele(ts[i]))
  }

  /** Those whose leg ends in partition q. */
  function Here(g: RoadNet, q: Part, ts: seq<Teleporter>): (r: seq<Teleporter>)
  {
    if ts == [] then []
    else
      var last := ts[|ts| - 1];
      Here(g, q, ts[..|ts| - 1]) + (if last.end in g.links && g.links[last.end].part == q then [last] else [])
  }

  lemma {:induction false} HereOrAway(g: RoadNet, q: Part, ts: seq<Teleporter>)
    ensures multiset(Here(g, q, ts)) + multiset(Away(g, q, ts)) == multiset(ts)
  {
    hide Here, Away;
    if ts == [] {
      NobodyAtAll(g, q);
    } else {
      var front, last := ts[..|ts| - 1], ts[|ts| - 1];
      HereOrAway(g, q, front);
      HereMore(g, q, ts);
      OneMoreOf(Here(g, q, front), Away(g, q, front), front, last);
      assert ts == front + [last];
    }
  }

  lemma {:induction false} NobodyAtAll(g: RoadNet, q: Part)
    ensures Here(g, q, []) == [] && Away(g, q, []) == []
  {
  }

  lemma {:induction false} OneMoreOf(here: seq<Teleporter>, away: seq<Teleporter>, all: seq<Teleporter>, t: Teleporter)
    requires multiset(here) + multiset(away) == multiset(all)
    ensures multiset(here + [t]) + multiset(away) == multiset(all + [t])
    ensures multiset(here) + multiset(away + [t]) == multiset(all + [t])
  {
    var h, a, m := multiset(here), multiset(away), multiset(all);
    assert multiset(here + [t]) == h + multiset{t} && multiset(away + [t]) == a + multiset{t} && multiset(all + [t]) == m + multiset{t};
    assert h + multiset{t} + a == h + a + multiset{t};
    assert h + (a + multiset{t}) == h + a + multiset{t};
  }

  /** Process q after the vehicles ts have set out. */
  ghost function Ridden(w: World, s: Sys, q: Part, ts: seq<Teleporter>): (r: Sys)
    requires q in s.parts
  {
    var ps := s.parts[q];
    Sys(s.parts[q := PartState(ps.net, ps.idle - TeleIds(ts), ps.tele + Here(w.g, q, ts))], s.flight + AsTeles(Away(w.g, q, ts)))
  }

  lemma {:induction false} RidesAreSystemRun(w: World, p: real, s: Sys, q: Part, ts: seq<Teleporter>)
    requires q in s.parts && TeleIds(ts) <= s.parts[q].idle && forall t :: t in ts ==> MayRide(w, t)
    ensures RunAll(w, p, s, AsRides(q, ts)) == Ridden(w, s, q, ts)
  {
    hide MayRide, Ridden, RunAll, Step, TeleIds, AsRides;
    if ts == [] {
      NobodyRides(w, p, s, q);
    } else {
      var n := |ts| - 1;
      var front, t := ts[..n], ts[n];
      assert ts == front + [t] && t in ts && forall u :: u in front ==> u in ts;
      TeleIdsConcat(front, [t]);
      TeleIdsOne(t);
      TakeOut(s.parts[q].idle, TeleIds(front), multiset{t.id}, t.id);
      RidesAreSystemRun(w, p, s, q, front);
      LastRide(q, ts);
      RunAllSnoc(w, p, s, AsRides(q, front), DepartTele(q, t));
      OneRides(w, p, s, q, ts);
    }
  }

  lemma {:induction false} NobodyRides(w: World, p: real, s: Sys, q: Part)
    requires q in s.parts
    ensures RunAll(w, p, s, AsRides(q, [])) == Ridden(w, s, q, [])
  {
    var ps := s.parts[q];
    assert s.parts[q := ps] == s.parts && ps.idle - multiset{} == ps.idle && ps.tele + [] == ps.tele && s.flight + [] == s.flight;
    assert TeleIds([]) == multiset{} && AsTeles([]) == [];
  }

  lemma {:induction false} LastRide(q: Part, ts: seq<Teleporter>)
    requires ts != []
    ensures AsRides(q, ts) == AsRides(q, ts[..|ts| - 1]) + [DepartTele(q, ts[|ts| - 1])]
  {
  }

  lemma {:induction false} OneRides(w: World, p: real, s: Sys, q: Part, ts: seq<Teleporter>)
    requires ts != [] && q in s.parts
    requires var front, t := ts[..|ts| - 1], ts[|ts| - 1];
             && MayRide(w, t) && TeleIds(front) <= s.parts[q].idle && t.id in s.parts[q].idle - TeleIds(front)
             && s.parts[q].idle - TeleIds(front) - multiset{t.id} == s.parts[q].idle - TeleIds(ts)
    ensures Step(w, p, Ridden(w, s, q, ts[..|ts| - 1]), DepartTele(q, ts[|ts| - 1])) == Ridden(w, s, q, ts)
  {
    hide TeleIds, Here, Away;
    var front, t := ts[..|ts| - 1], ts[|ts| - 1];
    var ps := s.parts[q];
    var here, away := Here(w.g, q, front), Away(w.g, q, front);
    HereMore(w.g, q, ts);
    if w.g.links[t.end].part == q {
      assert ps.tele + here + [t] == ps.tele + (here + [t]);
      assert s.flight + AsTeles(away) + [] == s.flight + AsTeles(away);
    } else {
      assert AsTeles(away + [t]) == AsTeles(away) + [Tele(t)];
      assert s.flight + AsTeles(away) + [Tele(t)] == s.flight + (AsTeles(away) + [Tele(t)]);
    }
  }

  lemma {:induction false} HereMore(g: RoadNet, q: Part, ts: seq<Teleporter>)
    requires ts != []
    ensures var front, t := ts[..|ts| - 1], ts[|ts| - 1];
            if t.end in g.links && g.links[t.end].part == q then
              Here(g, q, ts) == Here(g, q, front) + [t] && Away(g, q, ts) == Away(g, q, front)
            else
              Here(g, q, ts) == Here(g, q, front) && Away(g, q, ts) == Away(g, q, front) + [t]
  {
  }

  /** The vehicles ts have arrived in process q, and nothing else has changed. */
  ghost predicate Arrived(s: Sys, r: Sys, q: Part, ts: seq<Teleporter>)
    requires q in s.parts
  {
    && r.flight == s.flight && q in r.parts && r.parts == s.parts[q := r.parts[q]]
    && r.parts[q].net == s.parts[q].net && r.parts[q].idle == s.parts[q].idle + TeleIds(ts)
    && multiset(r.parts[q].tele) + multiset(ts) == multiset(s.parts[q].tele)
  }

  lemma {:induction false} ArrivalsAreSystemRun(w: World, p: real, s: Sys, q: Part, ts: seq<Teleporter>) returns (run: seq<SysAction>)
    requires q in s.parts && multiset(ts) <= multiset(s.parts[q].tele)
    ensures Arrived(s, RunAll(w, p, s, run), q, ts)
  {
    hide RunAll, Step, TeleIds;
    if ts == [] {
      run := [];
      NobodyArrives(w, p, s, q);
    } else {
      var n := |ts| - 1;
      var front, t := ts[..n], ts[n];
      assert ts == front + [t];
      WithinBag(front, t, s.parts[q].tele);
      run := ArrivalsAreSystemRun(w, p, s, q, front);
      var mid := RunAll(w, p, s, run);
      var i := StillIn(s.parts[q].tele, mid.parts[q].tele, front, t);
      TeleIdsConcat(front, [t]);
      TeleIdsOne(t);
      OneArrives(w, p, s, mid, q, front, i);
      RunAllSnoc(w, p, s, run, TeleArrive(q, i));
      run := run + [TeleArrive(q, i)];
    }
  }

  lemma {:induction false} NobodyArrives(w: World, p: real, s: Sys, q: Part)
    requires q in s.parts
    ensures Arrived(s, RunAll(w, p, s, []), q, [])
  {
    assert TeleIds([]) == multiset{} && s.parts[q := s.parts[q]] == s.parts;
  }

  lemma {:induction false} OneArrives(w: World, p: real, s: Sys, mid: Sys, q: Part, front: seq<Teleporter>, i: nat)
    requires q in s.parts && Arrived(s, mid, q, front) && i < |mid.parts[q].tele|
    requires TeleIds(front + [mid.parts[q].tele[i]]) == TeleIds(front) + multiset{mid.parts[q].tele[i].id}
    ensures Arrived(s, Step(w, p, mid, TeleArrive(q, i)), q, front + [mid.parts[q].tele[i]])
  {
    hide TeleIds;
    var tele := mid.parts[q].tele;
    OneLessIn(s.parts[q].tele, tele, front, i);
    var a := TeleIds(front);
    assert s.parts[q].idle + a + multiset{tele[i].id} == s.parts[q].idle + (a + multiset{tele[i].id});
  }

  lemma {:induction false} WithinBag<T>(front: seq<T>, k: T, all: seq<T>)
    requires multiset(front + [k]) <= multiset(all)
    ensures multiset(front) <= multiset(all)
  {
    forall j
      ensures multiset(front)[j] <= multiset(all)[j]
    {
      assert multiset(front + [k])[j] <= multiset(all)[j];
    }
  }

  lemma {:induction false} StillIn<T(!new)>(all: seq<T>, rest: seq<T>, front: seq<T>, k: T) returns (i: nat)
    requires multiset(rest) + multiset(front) == multiset(all) && multiset(front + [k]) <= multiset(all)
    ensures i < |rest| && rest[i] == k
  {
    assert multiset(front + [k])[k] == multiset(front)[k] + 1;
    assert (multiset(rest) + multiset(front))[k] == multiset(all)[k];
    assert k in multiset(rest);
    i :| 0 <= i < |rest| && rest[i] == k;
  }

  lemma {:induction false} OneLessIn<T>(all: seq<T>, rest: seq<T>, front: seq<T>, i: nat)
    requires i < |rest| && multiset(rest) + multiset(front) == multiset(all)
    ensures multiset(rest[..i] + rest[i + 1..]) + multiset(front + [rest[i]]) == multiset(all)
  {
    var k, a := rest[i], multiset(rest[..i] + rest[i + 1..]);
    assert rest == rest[..i] + ([k] + rest[i + 1..]);
    assert multiset(rest) == a + multiset{k};
    assert a + multiset(front + [k]) == a + multiset{k} + multiset(front);
  }

  // ------------------------------------------------------------------ what other partitions sent

  /** What taking a packet does to the network. */
  function Taken(k: Packet, now: Tick): (acts: seq<NetAction>)
  {
    match k
    case Veh(v) => [Receive(v, now)]
    case Update(u) => [Credit(u.link, u.released)]
    case Tele(_) => []
  }

  ghost function AllTaken(ks: seq<Packet>, now: Tick): (acts: seq<NetAction>)
  {
    if ks == [] then [] else AllTaken(ks[..|ks| - 1], now) + Taken(ks[|ks| - 1], now)
  }

  function TelesOf(ks: seq<Packet>): (ts: seq<Teleporter>)
    ensures forall t :: t in ts <==> Tele(t) in ks
  {
    if ks == [] then []
    else
      var k := ks[|ks| - 1];
      assert ks == ks[..|ks| - 1] + [k];
      TelesOf(ks[..|ks| - 1]) + (if k.Tele? then [k.t] else [])
  }

  ghost predicate BoundFor(w: World, q: Part, k: Packet)
  {
    Destination(w.g, k) == Some(q)
  }

  /** A process after it has taken the packets ks, in order. */
  ghost function Took(w: World, q: Part, ps: PartState, ks: seq<Packet>, now: Tick): (r: PartState)
  {
    PartState(Run(Ctx(w, q), ps.net, AllTaken(ks, now)), ps.idle, ps.tele + TelesOf(ks))
  }

  /** Process q has taken the packets ks out of the flight, in order, and nothing else has changed. */
  ghost predicate Received(w: World, s: Sys, r: Sys, q: Part, ks: seq<Packet>, now: Tick)
    requires q in s.parts
  {
    r.parts == s.parts[q := Took(w, q, s.parts[q], ks, now)] && multiset(r.flight) + multiset(ks) == multiset(s.flight)
  }

  lemma {:induction false} DeliveriesAreSystemRun(w: World, p: real, s: Sys, q: Part, ks: seq<Packet>, now: Tick) returns (run: seq<SysAction>)
    requires q in s.parts && Ok(w, p, s) && multiset(ks) <= multiset(s.flight) && forall k :: k in ks ==> BoundFor(w, q, k)
    ensures Received(w, s, RunAll(w, p, s, run), q, ks, now)
  {
    hide Ok, Took, RunAll, Step, BoundFor;
    if ks == [] {
      run := [];
      NothingReceived(w, p, s, q, now);
    } else {
      var n := |ks| - 1;
      var front, k := ks[..n], ks[n];
      assert ks == front + [k] && k in ks && forall j :: j in front ==> j in ks;
      WithinBag(front, k, s.flight);
      run := DeliveriesAreSystemRun(w, p, s, q, front, now);
      var mid := RunAll(w, p, s, run);
      RunKeepsOk(w, p, s, run);
      var i := StillIn(s.flight, mid.flight, front, k);
      DeliverOne(w, p, mid, q, i, now);
      RunAllSnoc(w, p, s, run, Deliver(i, now));
      OneLessIn(s.flight, mid.flight, front, i);
      TookMore(w, q, s.parts[q], front, k, now);
      run := run + [Deliver(i, now)];
    }
  }

  lemma {:induction false} NothingReceived(w: World, p: real, s: Sys, q: Part, now: Tick)
    requires q in s.parts
    ensures Received(w, s, RunAll(w, p, s, []), q, [], now)
  {
    var ps := s.parts[q];
    assert ps.tele + [] == ps.tele && s.parts[q := ps] == s.parts;
  }

  lemma {:induction false} TookMore(w: World, q: Part, ps: PartState, front: seq<Packet>, k: Packet, now: Tick)
    ensures Took(w, q, Took(w, q, ps, front, now), [k], now) == Took(w, q, ps, front + [k], now)
  {
    var all := front + [k];
    hide Run, Taken;
    assert all[..|all| - 1] == front && [k][..0] == [];
    assert AllTaken([k], now) == [] + Taken(k, now) == Taken(k, now);
    RunConcat(Ctx(w, q), ps.net, AllTaken(front, now), Taken(k, now));
    assert TelesOf([k]) == (if k.Tele? then [k.t] else []);
    assert ps.tele + TelesOf(front) + TelesOf([k]) == ps.tele + (TelesOf(front) + TelesOf([k]));
  }

  lemma {:induction false} DeliverOne(w: World, p: real, s: Sys, q: Part, i: nat, now: Tick)
    requires q in s.parts && i < |s.flight| && Ok(w, p, s) && BoundFor(w, q, s.flight[i])
    ensures Step(w, p, s, Deliver(i, now)) ==
            Sys(s.parts[q := Took(w, q, s.parts[q], [s.flight[i]], now)], s.flight[..i] + s.flight[i + 1..])
  {
    hide Ok, Took, Destination, Step, PacketOk;
    DeliverStep(w, p, s, i, now);
    OneTaken(w, p, s, q, s.flight[i], now);
  }

  lemma {:induction false} OneTaken(w: World, p: real, s: Sys, q: Part, k: Packet, now: Tick)
    requires q in s.parts && PacketOk(w, p, k) && BoundFor(w, q, k)
    ensures DeliverTo(w, s, q, k, now).0 == Took(w, q, s.parts[q], [k], now)
  {
    hide Apply, NetInvariant.Placed, Run, AllTaken, TelesOf, Split;
    var x, ps := Ctx(w, q), s.parts[q];
    OnlyOne(k, now);
    assert ps.tele + [] == ps.tele;
    match k
    case Veh(v) => RunOne(x, ps.net, Receive(v, now));
    case Update(u) => RunOne(x, ps.net, Credit(u.link, u.released));
    case Tele(_) => Partition.RunNothing(x, ps.net);
  }

  lemma {:induction false} OnlyOne(k: Packet, now: Tick)
    ensures AllTaken([k], now) == Taken(k, now) && TelesOf([k]) == if k.Tele? then [k.t] else []
  {
    assert [k][..0] == [];
    assert AllTaken([k], now) == [] + Taken(k, now);
    assert TelesOf([k]) == [] + (if k.Tele? then [k.t] else []);
  }

  lemma {:induction false} RunOne(x: Context, net: NetState, a: NetAction)
    ensures Run(x, net, [a]) == Apply(x, net, a)
  {
    hide Apply;
    assert [a][..0] == [] && Run(x, net, []) == net;
  }

  /** The packets that make up a message, in the order in which they are taken. */
  function PacketsIn(m: SyncMessage): (ks: seq<Packet>)
  {
    AsUpdates(m.updates) + AsPackets(Drivers(m.riders)) + AsTeles(Rides(m.riders))
  }

  function PacketsOf(ms: seq<SyncMessage>): (ks: seq<Packet>)
  {
    if ms == [] then [] else PacketsOf(ms[..|ms| - 1]) + PacketsIn(ms[|ms| - 1])
  }

  lemma {:induction false} MessagesArePackets(ms: seq<SyncMessage>, now: Tick)
    ensures AllTaken(PacketsOf(ms), now) == TakingAll(ms, now) && TelesOf(PacketsOf(ms)) == AllRides(ms)
  {
    hide AllTaken, TelesOf, PacketsIn, LegEngines.Taking, Rides;
    if ms == [] {
      NothingTaken(now);
    } else {
      var front, m := ms[..|ms| - 1], ms[|ms| - 1];
      MessagesArePackets(front, now);
      MessageIsPackets(m, now);
      TakenConcat(PacketsOf(front), PacketsIn(m), now);
    }
  }

  lemma {:induction false} NothingTaken(now: Tick)
    ensures AllTaken([], now) == [] && TelesOf([]) == []
  {
  }

  lemma {:induction false} MessageIsPackets(m: SyncMessage, now: Tick)
    ensures AllTaken(PacketsIn(m), now) == LegEngines.Taking(m, now) && TelesOf(PacketsIn(m)) == Rides(m.riders)
  {
    hide AllTaken, TelesOf, Drivers, Rides;
    var us, vs, ts := AsUpdates(m.updates), AsPackets(Drivers(m.riders)), AsTeles(Rides(m.riders));
    UpdatesTaken(m.updates, now);
    DriversTaken(Drivers(m.riders), now);
    RidesTaken(Rides(m.riders), now);
    TakenConcat(us, vs, now);
    TakenConcat(us + vs, ts, now);
  }

  lemma {:induction false} LastTaken(front: seq<Packet>, k: Packet, now: Tick)
    ensures AllTaken(front + [k], now) == AllTaken(front, now) + Taken(k, now)
    ensures TelesOf(front + [k]) == TelesOf(front) + (if k.Tele? then [k.t] else [])
  {
    hide Taken;
    assert (front + [k])[..|front|] == front;
  }

  lemma {:induction false} UpdatesTaken(us: seq<StorageUpdate>, now: Tick)
    ensures AllTaken(AsUpdates(us), now) == Partition.Credits(us) && TelesOf(AsUpdates(us)) == []
  {
    hide AllTaken, TelesOf;
    if us == [] {
      NothingTaken(now);
    } else {
      var n := |us| - 1;
      UpdatesTaken(us[..n], now);
      assert AsUpdates(us) == AsUpdates(us[..n]) + [Update(us[n])];
      LastTaken(AsUpdates(us[..n]), Update(us[n]), now);
    }
  }

  lemma {:induction false} DriversTaken(vs: seq<Vehicle>, now: Tick)
    ensures AllTaken(AsPackets(vs), now) == Partition.Sends(vs, false, now) && TelesOf(AsPackets(vs)) == []
  {
    hide AllTaken, TelesOf;
    if vs == [] {
      NothingTaken(now);
    } else {
      var n := |vs| - 1;
      DriversTaken(vs[..n], now);
      assert AsPackets(vs) == AsPackets(vs[..n]) + [Veh(vs[n])];
      LastTaken(AsPackets(vs[..n]), Veh(vs[n]), now);
    }
  }

  lemma {:induction false} RidesTaken(ts: seq<Teleporter>, now: Tick)
    ensures AllTaken(AsTeles(ts), now) == [] && TelesOf(AsTeles(ts)) == ts
  {
    hide AllTaken, TelesOf;
    if ts == [] {
      NothingTaken(now);
    } else {
      var n := |ts| - 1;
      RidesTaken(ts[..n], now);
      assert AsTeles(ts) == AsTeles(ts[..n]) + [Tele(ts[n])];
      LastTaken(AsTeles(ts[..n]), Tele(ts[n]), now);
      assert ts == ts[..n] + [ts[n]];
    }
  }

  lemma {:induction false} TakenConcat(a: seq<Packet>, b: seq<Packet>, now: Tick)
    ensures AllTaken(a + b, now) == AllTaken(a, now) + AllTaken(b, now) && TelesOf(a + b) == TelesOf(a) + TelesOf(b)
  {
    hide Taken;
    if b == [] {
      assert a + b == a;
    } else {
      assert (a + b)[..|a + b| - 1] == a + b[..|b| - 1];
      TakenConcat(a, b[..|b| - 1], now);
    }
  }

  // ------------------------------------------------------------------ one process, up to the exchange

  /** What one process does in a tick: who sets out, its own work, who arrives, and what it takes in. */
  datatype ProcessTick = ProcessTick(
    departures: seq<Rider>, arrived: seq<Teleporter>, moved: seq<NetAction>, stepped: seq<NetAction>, inbox: seq<SyncMessage>)

  /** Agents that are here set out, each with a leg that begins here. */
  ghost predicate MayDepartAll(w: World, p: real, q: Part, idle: multiset<nat>, departures: seq<Rider>)
  {
    && Ids(Drivers(departures)) + TeleIds(Rides(departures)) <= idle
    && (forall v :: v in Drivers(departures) ==> MayDepart(w, p, q, v))
    && (forall t :: t in Rides(departures) ==> MayRide(w, t))
  }

  /** The network when the agents have departed, and when the partition's own work is done. */
  ghost function NetBegun(x: Context, net: NetState, t: ProcessTick, now: Tick): (r: NetState)
  {
    Run(x, net, Partition.Sends(Drivers(t.departures), true, now))
  }

  ghost function NetWorked(x: Context, net: NetState, t: ProcessTick, now: Tick): (r: NetState)
  {
    Run(x, NetBegun(x, net, t, now), t.moved + t.stepped)
  }

  ghost predicate WorkIsLegal(x: Context, net: NetState, t: ProcessTick, now: Tick)
  {
    && Legal(x, NetBegun(x, net, t, now), t.moved + t.stepped)
    && forall a :: a in t.moved + t.stepped ==> Works(a)
  }

  /** What a process sends in a tick: teleported vehicles that end elsewhere, vehicles that leave the partition, and released storage. */
  ghost function SentBy(w: World, q: Part, net: NetState, t: ProcessTick, now: Tick): (ks: seq<Packet>)
  {
    AsTeles(Away(w.g, q, Rides(t.departures))) + AllPackets(Ctx(w, q), NetBegun(Ctx(w, q), net, t, now), t.moved + t.stepped)
  }

  /** The agents at activities after the tick: without those who set out, with those whose leg ended. */
  ghost function IdleAfter(w: World, q: Part, ps: PartState, t: ProcessTick, now: Tick): (r: multiset<nat>)
  {
    var net := NetBegun(Ctx(w, q), ps.net, t, now);
    ps.idle - Ids(Drivers(t.departures)) - TeleIds(Rides(t.departures)) + TeleIds(t.arrived) + Ids(RunEnds(Ctx(w, q), net, t.moved + t.stepped))
  }

  /** From a to m process q has done everything but take in messages. */
  ghost predicate Midway(w: World, q: Part, a: PartState, m: PartState, t: ProcessTick, now: Tick)
  {
    && m.net == NetWorked(Ctx(w, q), a.net, t, now) && m.idle == IdleAfter(w, q, a, t, now)
    && multiset(m.tele) + multiset(t.arrived) + multiset(Away(w.g, q, Rides(t.departures))) == multiset(a.tele) + multiset(Rides(t.departures))
  }

  ghost predicate CanWork(w: World, p: real, q: Part, a: PartState, t: ProcessTick, now: Tick)
  {
    && MayDepartAll(w, p, q, a.idle, t.departures) && WorkIsLegal(Ctx(w, q), a.net, t, now)
    && multiset(t.arrived) + multiset(Away(w.g, q, Rides(t.departures))) <= multiset(a.tele) + multiset(Rides(t.departures))
  }

  lemma {:induction false} ProcessIsSystemRun(w: World, p: real, s: Sys, q: Part, t: ProcessTick, now: Tick) returns (run: seq<SysAction>)
    requires q in s.parts && CanWork(w, p, q, s.parts[q], t, now)
    ensures var r := RunAll(w, p, s, run);
            && q in r.parts && r.parts == s.parts[q := r.parts[q]] && Midway(w, q, s.parts[q], r.parts[q], t, now)
            && r.flight == s.flight + SentBy(w, q, s.parts[q].net, t, now)
  {
    hide Ids, TeleIds, RunAll, Run, MayDepart, MayRide, Works, Drivers, Rides, AsDeparts, AsRides, AsWork, Away, Here, AllPackets, RunEnds, Legal;
    var drivers, rides, work := Drivers(t.departures), Rides(t.departures), t.moved + t.stepped;
    InTwo(s.parts[q].idle, Ids(drivers), TeleIds(rides));
    DepartsAreSystemRun(w, p, s, q, drivers, now);
    var s1 := RunAll(w, p, s, AsDeparts(q, drivers));
    RidesAreSystemRun(w, p, s1, q, rides);
    var s2 := RunAll(w, p, s1, AsRides(q, rides));
    HereAreQueued(w.g, q, s.parts[q].tele, rides, t.arrived);
    var arrivals := ArrivalsAreSystemRun(w, p, s2, q, t.arrived);
    var s3 := RunAll(w, p, s2, arrivals);
    WorkIsSystemRun(w, p, s3, q, work);
    RunAllConcat(w, p, s, AsDeparts(q, drivers), AsRides(q, rides));
    RunAllConcat(w, p, s, AsDeparts(q, drivers) + AsRides(q, rides), arrivals);
    RunAllConcat(w, p, s, AsDeparts(q, drivers) + AsRides(q, rides) + arrivals, AsWork(q, work));
    run := AsDeparts(q, drivers) + AsRides(q, rides) + arrivals + AsWork(q, work);
    assert s.flight + AsTeles(Away(w.g, q, rides)) + AllPackets(Ctx(w, q), s3.parts[q].net, work) ==
           s.flight + (AsTeles(Away(w.g, q, rides)) + AllPackets(Ctx(w, q), s3.parts[q].net, work));
  }

  lemma {:induction false} InTwo(idle: multiset<nat>, a: multiset<nat>, b: multiset<nat>)
    requires a + b <= idle
    ensures a <= idle && b <= idle - a
  {
    forall y: nat
      ensures a[y] <= idle[y] && b[y] <= (idle - a)[y]
    {
      assert (a + b)[y] <= idle[y];
    }
  }

  lemma {:induction false} HereAreQueued(g: RoadNet, q: Part, tele: seq<Teleporter>, rides: seq<Teleporter>, arrived: seq<Teleporter>)
    requires multiset(arrived) + multiset(Away(g, q, rides)) <= multiset(tele) + multiset(rides)
    ensures multiset(arrived) <= multiset(tele + Here(g, q, rides))
    ensures multiset(tele + Here(g, q, rides)) + multiset(Away(g, q, rides)) == multiset(tele) + multiset(rides)
  {
    hide Here, Away;
    HereOrAway(g, q, rides);
    var all, away := multiset(tele + Here(g, q, rides)), multiset(Away(g, q, rides));
    assert all == multiset(tele) + multiset(Here(g, q, rides));
    forall y
      ensures multiset(arrived)[y] <= all[y]
    {
      assert (multiset(arrived) + away)[y] <= (all + away)[y];
    }
  }

  // ------------------------------------------------------------------ all processes

  /** One tick of all processes. The order is any in which the processes could work one after the other. */
  datatype SystemTick = SystemTick(of: map<Part, ProcessTick>, order: seq<Part>, now: Tick)

  /** All that the processes in the list send in the tick. */
  ghost function AllSent(w: World, s: Sys, tick: SystemTick, order: seq<Part>): (ks: seq<Packet>)
    requires forall q :: q in order ==> q in s.parts && q in tick.of
  {
    if order == [] then []
    else
      var q := order[|order| - 1];
      AllSent(w, s, tick, order[..|order| - 1]) + SentBy(w, q, s.parts[q].net, tick.of[q], tick.now)
  }

  /** All that the processes in the list take in. */
  function AllInbox(tick: SystemTick, order: seq<Part>): (ks: seq<Packet>)
    requires forall q :: q in order ==> q in tick.of
  {
    if order == [] then [] else AllInbox(tick, order[..|order| - 1]) + PacketsOf(tick.of[order[|order| - 1]].inbox)
  }

  /** The processes in the list have worked, the others are as before. */
  ghost predicate AllMidway(w: World, s: Sys, r: Sys, tick: SystemTick, order: seq<Part>)
    requires forall q :: q in order ==> q in s.parts && q in tick.of
  {
    && r.parts.Keys == s.parts.Keys && r.flight == s.flight + AllSent(w, s, tick, order)
    && forall q :: q in s.parts ==>
         if q in order then Midway(w, q, s.parts[q], r.parts[q], tick.of[q], tick.now) else r.parts[q] == s.parts[q]
  }

  lemma {:induction false} WorkOfAll(w: World, p: real, s: Sys, tick: SystemTick, order: seq<Part>) returns (run: seq<SysAction>)
    requires NoDuplicates(order) && forall q :: q in order ==> q in s.parts && q in tick.of
    requires forall q :: q in order ==> CanWork(w, p, q, s.parts[q], tick.of[q], tick.now)
    ensures AllMidway(w, s, RunAll(w, p, s, run), tick, order)
  {
    hide RunAll, CanWork, Midway, SentBy;
    if order == [] {
      run := [];
      NobodyWorks(w, p, s, tick);
    } else {
      var front, q := order[..|order| - 1], order[|order| - 1];
      assert q in order && forall k :: k in front ==> k in order;
      LastOnce(order);
      run := WorkOfAll(w, p, s, tick, front);
      var mid := RunAll(w, p, s, run);
      var more := ProcessIsSystemRun(w, p, mid, q, tick.of[q], tick.now);
      RunAllConcat(w, p, s, run, more);
      OneMoreWorks(w, s, mid, RunAll(w, p, mid, more), tick, order);
      run := run + more;
    }
  }

  lemma {:induction false} LastOnce(order: seq<Part>)
    requires order != [] && NoDuplicates(order)
    ensures NoDuplicates(order[..|order| - 1]) && order[|order| - 1] !in order[..|order| - 1]
    ensures forall q :: q in order <==> q in order[..|order| - 1] || q == order[|order| - 1]
  {
    assert order == order[..|order| - 1] + [order[|order| - 1]];
  }

  lemma {:induction false} NobodyWorks(w: World, p: real, s: Sys, tick: SystemTick)
    ensures AllMidway(w, s, RunAll(w, p, s, []), tick, [])
  {
    assert s.flight + [] == s.flight;
  }

  lemma {:induction false} OneMoreWorks(w: World, s: Sys, mid: Sys, r: Sys, tick: SystemTick, order: seq<Part>)
    requires order != [] && NoDuplicates(order) && forall q :: q in order ==> q in s.parts && q in tick.of
    requires forall q :: q in order[..|order| - 1] ==> q in order
    requires AllMidway(w, s, mid, tick, order[..|order| - 1])
    requires var q := order[|order| - 1];
             && q in order && q !in order[..|order| - 1]
             && q in r.parts && r.parts == mid.parts[q := r.parts[q]] && Midway(w, q, mid.parts[q], r.parts[q], tick.of[q], tick.now)
             && r.flight == mid.flight + SentBy(w, q, mid.parts[q].net, tick.of[q], tick.now)
    ensures AllMidway(w, s, r, tick, order)
  {
    hide Midway, SentBy;
    LastOnce(order);
    var front, q := order[..|order| - 1], order[|order| - 1];
    var a, b := AllSent(w, s, tick, front), SentBy(w, q, s.parts[q].net, tick.of[q], tick.now);
    assert s.flight + a + b == s.flight + (a + b);
  }

  /** The processes in the list have taken in their messages, the others are as before. */
  ghost predicate AllTook(w: World, s: Sys, r: Sys, tick: SystemTick, order: seq<Part>)
    requires forall q :: q in order ==> q in s.parts && q in tick.of
  {
    && r.parts.Keys == s.parts.Keys && multiset(r.flight) + multiset(AllInbox(tick, order)) == multiset(s.flight)
    && forall q :: q in s.parts ==>
         r.parts[q] == if q in order then Took(w, q, s.parts[q], PacketsOf(tick.of[q].inbox), tick.now) else s.parts[q]
  }

  lemma {:induction false} ExchangeOfAll(w: World, p: real, s: Sys, tick: SystemTick, order: seq<Part>) returns (run: seq<SysAction>)
    requires Ok(w, p, s) && NoDuplicates(order) && forall q :: q in order ==> q in s.parts && q in tick.of
    requires multiset(AllInbox(tick, order)) <= multiset(s.flight)
    requires forall q :: q in order ==> forall k :: k in PacketsOf(tick.of[q].inbox) ==> BoundFor(w, q, k)
    ensures AllTook(w, s, RunAll(w, p, s, run), tick, order)
  {
    hide Ok, RunAll, PacketsOf, BoundFor, Took;
    if order == [] {
      run := [];
      NobodyTakes(w, p, s, tick);
    } else {
      var front, q := order[..|order| - 1], order[|order| - 1];
      assert q in order && forall k :: k in front ==> k in order;
      LastOnce(order);
      var ks := PacketsOf(tick.of[q].inbox);
      SplitBag(AllInbox(tick, front), ks, s.flight);
      run := ExchangeOfAll(w, p, s, tick, front);
      var mid := RunAll(w, p, s, run);
      RunKeepsOk(w, p, s, run);
      RestBag(AllInbox(tick, front), ks, s.flight, mid.flight);
      var more := DeliveriesAreSystemRun(w, p, mid, q, ks, tick.now);
      RunAllConcat(w, p, s, run, more);
      OneMoreTakes(w, s, mid, RunAll(w, p, mid, more), tick, order);
      run := run + more;
    }
  }

  lemma {:induction false} NobodyTakes(w: World, p: real, s: Sys, tick: SystemTick)
    ensures AllTook(w, s, RunAll(w, p, s, []), tick, [])
  {
  }

  lemma {:induction false} SplitBag(a: seq<Packet>, b: seq<Packet>, all: seq<Packet>)
    requires multiset(a + b) <= multiset(all)
    ensures multiset(a) <= multiset(all)
  {
    assert multiset(a + b) == multiset(a) + multiset(b);
    forall k
      ensures multiset(a)[k] <= multiset(all)[k]
    {
      assert multiset(a + b)[k] <= multiset(all)[k];
    }
  }

  lemma {:induction false} RestBag(a: seq<Packet>, b: seq<Packet>, all: seq<Packet>, rest: seq<Packet>)
    requires multiset(a + b) <= multiset(all) && multiset(rest) + multiset(a) == multiset(all)
    ensures multiset(b) <= multiset(rest)
  {
    assert multiset(a + b) == multiset(a) + multiset(b);
    forall k
      ensures multiset(b)[k] <= multiset(rest)[k]
    {
      assert multiset(a + b)[k] <= multiset(all)[k] && (multiset(rest) + multiset(a))[k] == multiset(all)[k];
    }
  }

  lemma {:induction false} OneMoreTakes(w: World, s: Sys, mid: Sys, r: Sys, tick: SystemTick, order: seq<Part>)
    requires order != [] && NoDuplicates(order) && forall q :: q in order ==> q in s.parts && q in tick.of
    requires forall q :: q in order[..|order| - 1] ==> q in order
    requires AllTook(w, s, mid, tick, order[..|order| - 1])
    requires var q := order[|order| - 1];
             q in order && q !in order[..|order| - 1] && Received(w, mid, r, q, PacketsOf(tick.of[q].inbox), tick.now)
    ensures AllTook(w, s, r, tick, order)
  {
    hide Took, PacketsOf;
    LastOnce(order);
    var front, ks := order[..|order| - 1], PacketsOf(tick.of[order[|order| - 1]].inbox);
    assert multiset(AllInbox(tick, front) + ks) == multiset(AllInbox(tick, front)) + multiset(ks);
    assert multiset(r.flight) + (multiset(AllInbox(tick, front)) + multiset(ks)) == multiset(r.flight) + multiset(ks) + multiset(AllInbox(tick, front));
  }

  // ------------------------------------------------------------------ the tick

  /** Process q makes the tick from a to b, as its engine does it. */
  ghost predicate ProcessTicks(w: World, p: real, q: Part, a: PartState, b: PartState, t: ProcessTick, now: Tick)
  {
    && MayDepartAll(w, p, q, a.idle, t.departures) && b.idle == IdleAfter(w, q, a, t, now)
    && TickDone(Ctx(w, q), q, a.net, multiset(a.tele), b.net, multiset(b.tele), t.departures, t.moved, t.stepped, t.inbox, t.arrived, now)
  }

  /**
   * From a to b every process makes its tick. What they take in was in flight before, or is sent by
   * one of them in this tick; what is neither taken in nor delivered before stays in flight.
   */
  ghost predicate TickFrom(w: World, p: real, a: Sys, b: Sys, tick: SystemTick)
  {
    && NoDuplicates(tick.order) && (forall q :: q in tick.order <==> q in a.parts) && a.parts.Keys == b.parts.Keys == tick.of.Keys
    && (forall q :: q in a.parts ==> ProcessTicks(w, p, q, a.parts[q], b.parts[q], tick.of[q], tick.now))
    && (forall q :: q in a.parts ==> forall k :: k in PacketsOf(tick.of[q].inbox) ==> BoundFor(w, q, k))
    && multiset(b.flight) + multiset(AllInbox(tick, tick.order)) == multiset(a.flight) + multiset(AllSent(w, a, tick, tick.order))
  }

  /** The same, but for the order in queues of teleported vehicles and of packets in flight. */
  ghost predicate Same(a: Sys, b: Sys)
  {
    && a.parts.Keys == b.parts.Keys && multiset(a.flight) == multiset(b.flight)
    && forall q :: q in a.parts ==>
         a.parts[q].net == b.parts[q].net && a.parts[q].idle == b.parts[q].idle && multiset(a.parts[q].tele) == multiset(b.parts[q].tele)
  }

  /** One tick of all processes is a run of the system. */
  lemma {:induction false} TickIsSystemRun(w: World, p: real, a: Sys, b: Sys, tick: SystemTick) returns (run: seq<SysAction>)
    requires Ok(w, p, a) && TickFrom(w, p, a, b, tick)
    ensures Same(RunAll(w, p, a, run), b)
  {
    hide Ok, RunAll, ProcessTicks, CanWork, AllSent, AllInbox, Midway, PacketsOf, BoundFor, Took;
    forall q | q in a.parts
      ensures CanWork(w, p, q, a.parts[q], tick.of[q], tick.now)
    {
      TickCanWork(w, p, q, a.parts[q], b.parts[q], tick.of[q], tick.now);
    }
    var work := WorkOfAll(w, p, a, tick, tick.order);
    var mid := RunAll(w, p, a, work);
    RunKeepsOk(w, p, a, work);
    InFlightMidway(a.flight, AllSent(w, a, tick, tick.order), b.flight, AllInbox(tick, tick.order));
    var exchange := ExchangeOfAll(w, p, mid, tick, tick.order);
    RunAllConcat(w, p, a, work, exchange);
    run := work + exchange;
    var r := RunAll(w, p, a, run);
    SameRest(r.flight, b.flight, mid.flight, AllInbox(tick, tick.order));
    forall q | q in a.parts
      ensures r.parts[q].net == b.parts[q].net && r.parts[q].idle == b.parts[q].idle && multiset(r.parts[q].tele) == multiset(b.parts[q].tele)
    {
      InboxWasInFlight(mid.flight, tick, tick.order, q);
      InboxOk(w, p, mid, q, PacketsOf(tick.of[q].inbox));
      ProcessEnds(w, p, q, a.parts[q], mid.parts[q], r.parts[q], b.parts[q], tick.of[q], tick.now);
    }
  }

  lemma {:induction false} TickCanWork(w: World, p: real, q: Part, a: PartState, b: PartState, t: ProcessTick, now: Tick)
    requires ProcessTicks(w, p, q, a, b, t, now)
    ensures CanWork(w, p, q, a, t, now)
  {
    hide Run, Legal, Drivers, Rides, Away, TakingAll, TickActs, MayDepartAll;
    InThree(Ctx(w, q), a.net, t.departures, t.moved, t.stepped, t.inbox, now);
  }

  /** A tick in three: departures, the partition's own work, and what is taken in. */
  lemma {:induction false} InThree(x: Context, net: NetState, departures: seq<Rider>, moved: seq<NetAction>, stepped: seq<NetAction>,
                                   inbox: seq<SyncMessage>, now: Tick)
    requires Legal(x, net, TickActs(departures, moved, stepped, inbox, now))
    ensures var net1 := Run(x, net, Partition.Sends(Drivers(departures), true, now));
            var net2 := Run(x, net1, moved + stepped);
            && Legal(x, net1, moved + stepped) && Legal(x, net2, TakingAll(inbox, now))
            && Run(x, net, TickActs(departures, moved, stepped, inbox, now)) == Run(x, net2, TakingAll(inbox, now))
  {
    hide Run, Legal, TakingAll;
    var begun, work, taken := Partition.Sends(Drivers(departures), true, now), moved + stepped, TakingAll(inbox, now);
    assert TickActs(departures, moved, stepped, inbox, now) == begun + (work + taken);
    RunConcat(x, net, begun, work + taken);
    RunConcat(x, Run(x, net, begun), work, taken);
  }

  lemma {:induction false} InFlightMidway(flight: seq<Packet>, sent: seq<Packet>, rest: seq<Packet>, inbox: seq<Packet>)
    requires multiset(rest) + multiset(inbox) == multiset(flight) + multiset(sent)
    ensures multiset(inbox) <= multiset(flight + sent) && multiset(flight + sent) == multiset(rest) + multiset(inbox)
  {
    assert multiset(flight + sent) == multiset(flight) + multiset(sent);
  }

  lemma {:induction false} SameRest(a: seq<Packet>, b: seq<Packet>, all: seq<Packet>, inbox: seq<Packet>)
    requires multiset(a) + multiset(inbox) == multiset(all) == multiset(b) + multiset(inbox)
    ensures multiset(a) == multiset(b)
  {
    forall k
      ensures multiset(a)[k] == multiset(b)[k]
    {
      assert (multiset(a) + multiset(inbox))[k] == (multiset(b) + multiset(inbox))[k];
    }
  }

  lemma {:induction false} InboxWasInFlight(flight: seq<Packet>, tick: SystemTick, order: seq<Part>, q: Part)
    requires q in order && (forall k :: k in order ==> k in tick.of) && multiset(AllInbox(tick, order)) <= multiset(flight)
    ensures forall k :: k in PacketsOf(tick.of[q].inbox) ==> k in flight
  {
    InAllInbox(tick, order, q);
    forall k | k in PacketsOf(tick.of[q].inbox)
      ensures k in flight
    {
      assert k in multiset(AllInbox(tick, order));
    }
  }

  lemma {:induction false} InAllInbox(tick: SystemTick, order: seq<Part>, q: Part)
    requires q in order && forall k :: k in order ==> k in tick.of
    ensures forall k :: k in PacketsOf(tick.of[q].inbox) ==> k in AllInbox(tick, order)
  {
    hide PacketsOf;
    var front := order[..|order| - 1];
    if q != order[|order| - 1] {
      assert q in front;
      InAllInbox(tick, front, q);
    }
  }

  /** Teleported vehicles that are taken in end here. */
  lemma {:induction false} InboxOk(w: World, p: real, s: Sys, q: Part, ks: seq<Packet>)
    requires Ok(w, p, s) && forall k :: k in ks ==> k in s.flight && BoundFor(w, q, k)
    ensures forall t :: t in TelesOf(ks) ==> t.end in w.g.links && w.g.links[t.end].part == q
  {
    hide PartsOk, ValidWorld;
    forall t | t in TelesOf(ks)
      ensures t.end in w.g.links && w.g.links[t.end].part == q
    {
      assert PacketOk(w, p, Tele(t)) && BoundFor(w, q, Tele(t));
    }
  }

  lemma {:induction false} NoneAway(g: RoadNet, q: Part, ts: seq<Teleporter>)
    requires forall t :: t in ts ==> t.end in g.links && g.links[t.end].part == q
    ensures Away(g, q, ts) == []
  {
    if ts != [] {
      NoneAway(g, q, ts[..|ts| - 1]);
    }
  }

  /** The process is in the end where its engine says. */
  lemma {:induction false} ProcessEnds(w: World, p: real, q: Part, a: PartState, m: PartState, r: PartState, b: PartState, t: ProcessTick, now: Tick)
    requires ProcessTicks(w, p, q, a, b, t, now) && Midway(w, q, a, m, t, now) && r == Took(w, q, m, PacketsOf(t.inbox), now)
    requires forall k :: k in TelesOf(PacketsOf(t.inbox)) ==> k.end in w.g.links && w.g.links[k.end].part == q
    ensures r.net == b.net && r.idle == b.idle && multiset(r.tele) == multiset(b.tele)
  {
    hide Run, Legal, Drivers, Rides, Away, TakingAll, AllRides, TickActs, MayDepartAll, PacketsOf, TelesOf, AllTaken, IdleAfter;
    InThree(Ctx(w, q), a.net, t.departures, t.moved, t.stepped, t.inbox, now);
    MessagesArePackets(t.inbox, now);
    NoneAway(w.g, q, AllRides(t.inbox));
    TelesAgree(multiset(a.tele), m.tele, b.tele, t.arrived, Away(w.g, q, Rides(t.departures)), Rides(t.departures), AllRides(t.inbox));
  }

  lemma {:induction false} TelesAgree(a: multiset<Teleporter>, m: seq<Teleporter>, b: seq<Teleporter>, arrived: seq<Teleporter>,
                                      away: seq<Teleporter>, rides: seq<Teleporter>, taken: seq<Teleporter>)
    requires multiset(m) + multiset(arrived) + multiset(away) == a + multiset(rides)
    requires multiset(b) + multiset(arrived) + multiset(away + []) == a + multiset(rides) + multiset(taken)
    ensures multiset(m + taken) == multiset(b)
  {
    assert away + [] == away;
    forall t
      ensures multiset(m + taken)[t] == multiset(b)[t]
    {
      assert (multiset(m) + multiset(arrived) + multiset(away))[t] == (a + multiset(rides))[t];
      assert (multiset(b) + multiset(arrived) + multiset(away))[t] == (a + multiset(rides) + multiset(taken))[t];
    }
  }

  // ------------------------------------------------------------------ ticks in a row

  /** Any number of ticks of all processes is a run of the system. */
  lemma {:induction false} TicksAreSystemRun(w: World, p: real, states: seq<Sys>, ticks: seq<SystemTick>) returns (run: seq<SysAction>)
    requires |states| == |ticks| + 1 && Ok(w, p, states[0])
    requires forall i :: 0 <= i < |ticks| ==> TickFrom(w, p, states[i], states[i + 1], ticks[i])
    ensures Same(RunAll(w, p, states[0], run), states[|ticks|])
    decreases |ticks|
  {
    hide Ok, RunAll, TickFrom, Same;
    if ticks == [] {
      run := [];
      SameRefl(w, p, states[0]);
    } else {
      var n := |ticks| - 1;
      var before := states[..n + 1];
      run := TicksAreSystemRun(w, p, before, ticks[..n]);
      var r := RunAll(w, p, states[0], run);
      RunKeepsOk(w, p, states[0], run);
      TickFromSame(w, p, states[n], r, states[n + 1], ticks[n]);
      var more := TickIsSystemRun(w, p, r, states[n + 1], ticks[n]);
      RunAllConcat(w, p, states[0], run, more);
      run := run + more;
    }
  }

  lemma {:induction false} SameRefl(w: World, p: real, s: Sys)
    ensures Same(RunAll(w, p, s, []), s)
  {
  }

  /** The order in queues and in flight makes no difference to a tick. */
  lemma {:induction false} TickFromSame(w: World, p: real, a: Sys, c: Sys, b: Sys, tick: SystemTick)
    requires TickFrom(w, p, a, b, tick) && Same(c, a)
    ensures TickFrom(w, p, c, b, tick)
  {
    hide AllSent, AllInbox, PacketsOf, BoundFor, ProcessTicks;
    SameSent(w, a, c, tick, tick.order);
    forall q | q in c.parts
      ensures ProcessTicks(w, p, q, c.parts[q], b.parts[q], tick.of[q], tick.now)
    {
      SameProcess(w, p, q, a.parts[q], c.parts[q], b.parts[q], tick.of[q], tick.now);
    }
  }

  lemma {:induction false} SameProcess(w: World, p: real, q: Part, a: PartState, c: PartState, b: PartState, t: ProcessTick, now: Tick)
    requires ProcessTicks(w, p, q, a, b, t, now) && a.net == c.net && a.idle == c.idle && multiset(a.tele) == multiset(c.tele)
    ensures ProcessTicks(w, p, q, c, b, t, now)
  {
    hide TickDone, MayDepartAll, Run, RunEnds, NetBegun, Ids, TeleIds;
  }

  lemma {:induction false} SameSent(w: World, a: Sys, c: Sys, tick: SystemTick, order: seq<Part>)
    requires forall q :: q in order ==> q in a.parts && q in c.parts && q in tick.of && a.parts[q].net == c.parts[q].net
    ensures AllSent(w, a, tick, order) == AllSent(w, c, tick, order)
  {
    hide SentBy;
    if order != [] {
      assert order[|order| - 1] in order && forall q :: q in order[..|order| - 1] ==> q in order;
      SameSent(w, a, c, tick, order[..|order| - 1]);
    }
  }

  // ------------------------------------------------------------------ what that gives

  /** Who is with one of the processes or in flight is the same after any number of ticks. */
  lemma {:induction false} TicksConserve(w: World, p: real, states: seq<Sys>, ticks: seq<SystemTick>)
    requires |states| == |ticks| + 1 && Ok(w, p, states[0])
    requires forall i :: 0 <= i < |ticks| ==> TickFrom(w, p, states[i], states[i + 1], ticks[i])
    ensures Everyone(states[|ticks|]) == Everyone(states[0]) && Ok(w, p, states[|ticks|])
  {
    hide Ok, RunAll, TickFrom, Same, Everyone;
    var run := TicksAreSystemRun(w, p, states, ticks);
    var r := RunAll(w, p, states[0], run);
    RunConserves(w, p, states[0], run);
    RunKeepsOk(w, p, states[0], run);
    SameEveryone(r, states[|ticks|]);
    SameOk(w, p, r, states[|ticks|]);
  }

  lemma {:induction false} SameOk(w: World, p: real, a: Sys, b: Sys)
    requires Ok(w, p, a) && Same(a, b)
    ensures Ok(w, p, b)
  {
    hide PacketOk, NetInvariant.Inv, ValidWorld;
    forall k | k in b.flight
      ensures k in a.flight
    {
      assert k in multiset(b.flight);
    }
  }

  lemma {:induction false} SameEveryone(a: Sys, b: Sys)
    requires Same(a, b)
    ensures Everyone(a) == Everyone(b)
  {
    hide TeleIds, FlightIds, NetInvariant.OnNet, Total;
    SameFlightIds(a.flight, b.flight);
    forall q | q in a.parts
      ensures PresentMap(a)[q] == PresentMap(b)[q]
    {
      SameTeleIds(a.parts[q].tele, b.parts[q].tele);
    }
    assert PresentMap(a) == PresentMap(b);
  }

  /** Where the first element of a is in b, and that the rest is the same. */
  lemma {:induction false} FindFirst<T(!new)>(a: seq<T>, b: seq<T>) returns (i: nat)
    requires a != [] && multiset(a) == multiset(b)
    ensures i < |b| && b[i] == a[0] && multiset(a[1..]) == multiset(b[..i] + b[i + 1..]) && |b| == |a|
  {
    assert a == [a[0]] + a[1..];
    assert a[0] in multiset(b);
    i :| 0 <= i < |b| && b[i] == a[0];
    assert b == b[..i] + ([b[i]] + b[i + 1..]);
    assert multiset(a[1..]) == multiset(a) - multiset{a[0]};
    assert multiset(b[..i] + b[i + 1..]) == multiset(b) - multiset{b[i]};
    assert |multiset(a)| == |a| && |multiset(b)| == |b|;
  }

  lemma {:induction false} SameTeleIds(a: seq<Teleporter>, b: seq<Teleporter>)
    requires multiset(a) == multiset(b)
    ensures TeleIds(a) == TeleIds(b)
    decreases |a|
  {
    if a == [] {
      assert |multiset(a)| == 0 && |multiset(b)| == |b|;
    } else {
      var i := FindFirst(a, b);
      SameTeleIds(a[1..], b[..i] + b[i + 1..]);
      TeleIdsRemove(b, i);
    }
  }

  lemma {:induction false} SameFlightIds(a: seq<Packet>, b: seq<Packet>)
    requires multiset(a) == multiset(b)
    ensures FlightIds(a) == FlightIds(b)
    decreases |a|
  {
    hide PacketIds;
    if a == [] {
      assert |multiset(a)| == 0 && |multiset(b)| == |b|;
    } else {
      var i := FindFirst(a, b);
      SameFlightIds(a[1..], Removed(b, i));
      FlightIdsRemove(b, i);
    }
  }

  /** The storage of every split link is balanced after any number of ticks. */
  lemma {:induction false} TicksBalance(w: World, p: real, states: seq<Sys>, ticks: seq<SystemTick>, l: LinkId)
    requires |states| == |ticks| + 1 && ValidWorld(w) && p > 0.0 && Initial(w, states[0]) && Split(w.g, l)
    requires forall i :: 0 <= i < |ticks| ==> TickFrom(w, p, states[i], states[i + 1], ticks[i])
    ensures Ledger.Balanced(w, states[|ticks|], l)
  {
    hide Ok, RunAll, TickFrom, Same, Initial, ValidWorld, Ledger.Balanced;
    InitialOk(w, p, states[0]);
    var run := TicksAreSystemRun(w, p, states, ticks);
    Ledger.LedgerBalanced(w, p, states[0], run, l);
    SameBalance(w, RunAll(w, p, states[0], run), states[|ticks|], l);
  }

  lemma {:induction false} SameBalance(w: World, a: Sys, b: Sys, l: LinkId)
    requires Split(w.g, l) && Ledger.Balanced(w, a, l) && Same(a, b)
    ensures Ledger.Balanced(w, b, l)
  {
    hide Ledger.Owed;
    SameOwed(a.flight, b.flight, l);
  }

  lemma {:induction false} SameOwed(a: seq<Packet>, b: seq<Packet>, l: LinkId)
    requires multiset(a) == multiset(b)
    ensures Ledger.Owed(a, l) == Ledger.Owed(b, l)
    decreases |a|
  {
    hide Ledger.Weight;
    if a == [] {
      assert |multiset(a)| == 0 && |multiset(b)| == |b|;
    } else {
      var i := FindFirst(a, b);
      SameOwed(a[1..], Removed(b, i), l);
      Ledger.OwedRemoved(b, i, l);
    }
  }
}
