/**
 * The exchange of messages at the end of a tick. Neighbours wait for each other's message of the
 * tick; what is sent to any other partition may still be on its way when the last tick is over.
 * Only teleported vehicles are ever sent there.
 */
module Exchange {
  import opened Basics
  import opened LinkSpec
  import opened RoadNetwork
  import opened Links
  import opened Totals
  import opened NetSpec
  import NetInvariant
  import opened System
  import opened Conservation

  /** A packet with its sender. */
  datatype Mail = Mail(from: Part, k: Packet)

  ghost function Posted(q: Part, ks: seq<Packet>): (ms: seq<Mail>)
    ensures |ms| == |ks| && forall i :: 0 <= i < |ks| ==> ms[i] == Mail(q, ks[i])
  {
    seq(|ks|, i requires 0 <= i < |ks| => Mail(q, ks[i]))
  }

  /** The mail in flight after an action, if ms was before. */
  ghost function MailAfter(w: World, p: real, s: Sys, ms: seq<Mail>, act: SysAction): (r: seq<Mail>)
  {
    if !CanAct(w, p, s, act) then ms else
    match act
    case Depart(_, _) => ms
    case DepartTele(q, t) => ms + Posted(q, TeleReceive(w.g, q, s.parts[q], t).1)
    case TeleArrive(_, _) => ms
    case Act(q, a) => ms + Posted(q, Packets(Ctx(w, q), s.parts[q].net, a))
    case Deliver(i, now) =>
      var rest := if i < |ms| then ms[..i] + ms[i + 1..] else ms;
      var d := Destination(w.g, s.flight[i]);
      if d.Some? && d.value in s.parts then rest + Posted(d.value, DeliverTo(w, s, d.value, s.flight[i], now).1) else rest
  }

  /** The mail in flight after a run that started with none. */
  ghost function MailOf(w: World, p: real, s: Sys, acts: seq<SysAction>): (ms: seq<Mail>)
  {
    if acts == [] then []
    else
      var front := acts[..|acts| - 1];
      MailAfter(w, p, RunAll(w, p, s, front), MailOf(w, p, s, front), acts[|acts| - 1])
  }

  /** The mail is the flight, each packet with a sender. */
  ghost predicate Carries(ms: seq<Mail>, flight: seq<Packet>)
  {
    |ms| == |flight| && forall i :: 0 <= i < |ms| ==> ms[i].k == flight[i]
  }

  lemma {:induction false} MailIsFlight(w: World, p: real, s: Sys, acts: seq<SysAction>)
    requires s.flight == []
    ensures Carries(MailOf(w, p, s, acts), RunAll(w, p, s, acts).flight)
  {
    hide Step, MailAfter;
    if acts != [] {
      var front := acts[..|acts| - 1];
      MailIsFlight(w, p, s, front);
      StepCarries(w, p, RunAll(w, p, s, front), MailOf(w, p, s, front), acts[|acts| - 1]);
    }
  }

  lemma {:induction false} StepCarries(w: World, p: real, s: Sys, ms: seq<Mail>, act: SysAction)
    requires Carries(ms, s.flight)
    ensures Carries(MailAfter(w, p, s, ms, act), Step(w, p, s, act).flight)
  {
    hide Packets, Apply, Enabled, Ends, Ids, NetInvariant.Placed, DeliverTo, Destination;
  }

  // ------------------------------------------------------------------ who sends what to whom

  /** Partition q is the one that a leg ends in, or a neighbour of it. */
  ghost predicate NearBy(g: RoadNet, q: Part, t: Teleporter)
  {
    t.end in g.links && (g.links[t.end].part == q || Neighbour(g, q, g.links[t.end].part))
  }

  /** Sent by a partition that has a half of the link concerned, or by the one where a teleported leg among legs began. */
  ghost predicate RightSender(w: World, legs: set<(Part, Teleporter)>, m: Mail)
  {
    match m.k
    case Veh(v) => v.Curr().Some? && Split(w.g, v.Curr().value) && m.from == FromPart(w.g, v.Curr().value)
    case Update(u) => Split(w.g, u.link) && m.from == ToPart(w.g, u.link)
    case Tele(t) => (m.from, t) in legs && t.end in w.g.links && w.g.links[t.end].part != m.from
  }

  ghost predicate RightSenders(w: World, legs: set<(Part, Teleporter)>, ms: seq<Mail>)
  {
    forall m :: m in ms ==> RightSender(w, legs, m)
  }

  /** Every teleported leg of the run is among legs. */
  ghost predicate OnlyLegs(acts: seq<SysAction>, legs: set<(Part, Teleporter)>)
  {
    forall a :: a in acts && a.DepartTele? ==> (a.q, a.t) in legs
  }

  /** The leg can begin at some time in some run with these legs. */
  ghost predicate CanBegin(w: World, p: real, s: Sys, legs: set<(Part, Teleporter)>, q: Part, t: Teleporter)
  {
    exists acts :: OnlyLegs(acts, legs) && CanAct(w, p, RunAll(w, p, s, acts), DepartTele(q, t))
  }

  ghost function Begun(w: World, p: real, s: Sys, legs: set<(Part, Teleporter)>): (r: set<(Part, Teleporter)>)
  {
    set l | l in legs && CanBegin(w, p, s, legs, l.0, l.1)
  }

  lemma {:induction false} SendersAreRight(w: World, p: real, s: Sys, acts: seq<SysAction>, legs: set<(Part, Teleporter)>)
    requires Ok(w, p, s) && s.flight == [] && OnlyLegs(acts, legs)
    ensures RightSenders(w, Begun(w, p, s, legs), MailOf(w, p, s, acts))
  {
    hide Ok, Step, MailAfter, RightSender, CanAct, CanBegin, Carries;
    if acts != [] {
      var front, act := acts[..|acts| - 1], acts[|acts| - 1];
      assert act in acts && forall a :: a in front ==> a in acts;
      SendersAreRight(w, p, s, front, legs);
      MailIsFlight(w, p, s, front);
      RunKeepsOk(w, p, s, front);
      if act.DepartTele? && CanAct(w, p, RunAll(w, p, s, front), act) {
        BeginsNow(w, p, s, front, legs, act.q, act.t);
      }
      StepSenders(w, p, RunAll(w, p, s, front), MailOf(w, p, s, front), act, Begun(w, p, s, legs));
    }
  }

  lemma {:induction false} BeginsNow(w: World, p: real, s: Sys, acts: seq<SysAction>, legs: set<(Part, Teleporter)>, q: Part, t: Teleporter)
    requires OnlyLegs(acts, legs) && CanAct(w, p, RunAll(w, p, s, acts), DepartTele(q, t))
    ensures CanBegin(w, p, s, legs, q, t)
  {
    hide RunAll, CanAct, OnlyLegs;
  }

  lemma {:induction false} StepSenders(w: World, p: real, s: Sys, ms: seq<Mail>, act: SysAction, legs: set<(Part, Teleporter)>)
    requires Ok(w, p, s) && Carries(ms, s.flight) && RightSenders(w, legs, ms)
    requires act.DepartTele? && CanAct(w, p, s, act) ==> (act.q, act.t) in legs
    ensures RightSenders(w, legs, MailAfter(w, p, s, ms, act))
  {
    hide Ok, Packets, Apply, NetInvariant.Placed, DeliverTo, Enabled;
    if CanAct(w, p, s, act) {
      match act
      case Depart(_, _) =>
      case DepartTele(q, t) =>
      case TeleArrive(_, _) =>
      case Act(q, a) => ActSenders(w, p, s, q, a, legs);
      case Deliver(i, now) => NothingSentOn(w, p, s, i, now);
    }
  }

  /** A delivery sends nothing on. */
  lemma {:induction false} NothingSentOn(w: World, p: real, s: Sys, i: nat, now: Tick)
    requires Ok(w, p, s) && i < |s.flight|
    ensures var d := Destination(w.g, s.flight[i]);
            d.Some? && d.value in s.parts && DeliverTo(w, s, d.value, s.flight[i], now).1 == []
  {
    hide NetInvariant.Inv, PartsOk, ValidWorld, PacketOk, DeliverTo;
    assert s.flight[i] in s.flight;
    DeliveredOk(w, p, s, s.flight[i], now);
  }

  lemma {:induction false} ActSenders(w: World, p: real, s: Sys, q: Part, a: NetAction, legs: set<(Part, Teleporter)>)
    requires Ok(w, p, s) && CanAct(w, p, s, Act(q, a))
    ensures RightSenders(w, legs, Posted(q, Packets(Ctx(w, q), s.parts[q].net, a)))
  {
    hide Ok, NetInvariant.Inv, RightSender, Packets, Enabled;
    var x, net := Ctx(w, q), s.parts[q].net;
    NetOf(w, p, s, q);
    if a.StepLink? {
      LinkSenders(w, p, q, net, a, legs);
    } else {
      OnlyStepsSend(x, net, a);
    }
  }

  lemma {:induction false} OnlyStepsSend(x: Context, net: NetState, a: NetAction)
    requires !a.StepLink?
    ensures Packets(x, net, a) == []
  {
  }

  lemma {:induction false} LinkSenders(w: World, p: real, q: Part, net: NetState, a: NetAction, legs: set<(Part, Teleporter)>)
    requires NetInvariant.Inv(Ctx(w, q), p, net) && a.StepLink? && Enabled(Ctx(w, q), net, a)
    ensures RightSenders(w, legs, Posted(q, Packets(Ctx(w, q), net, a)))
  {
    hide NetInvariant.Connected, SimStep, StorageMax, FreshLink, NetInvariant.OnNet, NetInvariant.ActiveOk, NetInvariant.NodesOk;
    var x := Ctx(w, q);
    assert NetInvariant.LinkOk(x, p, a.l, net.links[a.l]);
    hide NetInvariant.Inv, NetInvariant.LinksOk;
    forall k | k in Packets(x, net, a)
      ensures RightSender(w, legs, Mail(q, k))
    {
      if k.Veh? {
        assert k.v in Exits(x, net, a);
        assert k.v in Contents(net.links[a.l]);
      } else {
        assert k.u in Releases(x, net, a);
      }
    }
  }

  // ------------------------------------------------------------------ what nobody waits for

  /** The sender and the destination are no neighbours, so the destination does not wait for the message. */
  ghost predicate Unawaited(w: World, m: Mail)
  {
    var d := Destination(w.g, m.k);
    d.Some? && !Neighbour(w.g, m.from, d.value)
  }

  /** Vehicles on the network and storage updates travel between neighbours only. */
  lemma {:induction false} SentToNeighbour(w: World, p: real, legs: set<(Part, Teleporter)>, m: Mail)
    requires ValidWorld(w) && PacketOk(w, p, m.k) && RightSender(w, legs, m) && !m.k.Tele?
    ensures Destination(w.g, m.k).Some? && Neighbour(w.g, m.from, Destination(w.g, m.k).value)
  {
    hide NetInvariant.Connected;
    var l := if m.k.Veh? then m.k.v.route[m.k.v.pos] else m.k.u.link;
    assert Split(w.g, l);
  }

  /** A teleported vehicle that nobody waits for is on a leg that does not end near where it began, and conversely. */
  lemma {:induction false} UnawaitedIff(w: World, p: real, legs: set<(Part, Teleporter)>, m: Mail)
    requires ValidWorld(w) && PacketOk(w, p, m.k) && RightSender(w, legs, m)
    ensures Unawaited(w, m) <==> m.k.Tele? && !NearBy(w.g, m.from, m.k.t)
  {
    hide Neighbour, ValidWorld;
    if !m.k.Tele? {
      SentToNeighbour(w, p, legs, m);
    }
  }

  // ------------------------------------------------------------------ the exchange

  /** The mail that stays in flight: not awaited, and not there in time. */
  ghost function LeftOver(w: World, ms: seq<Mail>, missed: set<Mail>): (r: seq<Mail>)
    ensures forall m :: m in r <==> m in ms && Unawaited(w, m) && m in missed
  {
    if ms == [] then []
    else (if Unawaited(w, ms[0]) && ms[0] in missed then [ms[0]] else []) + LeftOver(w, ms[1..], missed)
  }

  /** The deliveries of the mail from place i on: all that is awaited, and all else that is there in time. */
  ghost function Deliveries(w: World, ms: seq<Mail>, missed: set<Mail>, i: nat, now: Tick): (acts: seq<SysAction>)
    requires i <= |ms|
    decreases |ms| - i
  {
    if i == |ms| then []
    else if Unawaited(w, ms[i]) && ms[i] in missed then Deliveries(w, ms, missed, i + 1, now)
    else [Deliver(i, now)] + Deliveries(w, RemoveAt(ms, i), missed, i, now)
  }

  /** Everything that is awaited is delivered, and nothing is sent on. */
  lemma {:induction false} DeliveriesEmptyTheFlight(w: World, p: real, s: Sys, ms: seq<Mail>, missed: set<Mail>, i: nat, now: Tick)
    requires Ok(w, p, s) && Carries(ms, s.flight) && i <= |ms|
    ensures Carries(ms[..i] + LeftOver(w, ms[i..], missed), RunAll(w, p, s, Deliveries(w, ms, missed, i, now)).flight)
    decreases |ms| - i
  {
    hide Ok, Step, RunAll, LeftOver, Removed, Unawaited, Carries;
    if i == |ms| {
      RunAllNone(w, p, s);
      NothingLeft(w, missed);
      assert ms[i..] == [] && ms[..i] + [] == ms;
    } else {
      NextLeft(w, ms, missed, i);
      if Unawaited(w, ms[i]) && ms[i] in missed {
        DeliveriesEmptyTheFlight(w, p, s, ms, missed, i + 1, now);
        assert ms[..i + 1] + LeftOver(w, ms[i + 1..], missed) == ms[..i] + ([ms[i]] + LeftOver(w, ms[i + 1..], missed));
      } else {
        CarriedAt(ms, s.flight, i);
        DeliverKeepsOk(w, p, s, i, now);
        DeliverStep(w, p, s, i, now);
        var next := Step(w, p, s, Deliver(i, now));
        var rest := RemoveAt(ms, i);
        DeliveriesEmptyTheFlight(w, p, next, rest, missed, i, now);
        assert rest[..i] == ms[..i] && rest[i..] == ms[i + 1..];
        RunAllConcat(w, p, s, [Deliver(i, now)], Deliveries(w, rest, missed, i, now));
        RunAllOne(w, p, s, Deliver(i, now));
        assert LeftOver(w, ms[i..], missed) == LeftOver(w, rest[i..], missed);
      }
    }
  }

  lemma {:induction false} CarriedAt(ms: seq<Mail>, flight: seq<Packet>, i: nat)
    requires Carries(ms, flight) && i < |ms|
    ensures i < |flight| && Carries(RemoveAt(ms, i), Removed(flight, i))
  {
  }

  lemma {:induction false} NextLeft(w: World, ms: seq<Mail>, missed: set<Mail>, i: nat)
    requires i < |ms|
    ensures var rest := LeftOver(w, ms[i + 1..], missed);
            LeftOver(w, ms[i..], missed) == if Unawaited(w, ms[i]) && ms[i] in missed then [ms[i]] + rest else rest
  {
    hide Unawaited;
    assert ms[i..][1..] == ms[i + 1..];
    assert [] + LeftOver(w, ms[i + 1..], missed) == LeftOver(w, ms[i + 1..], missed);
  }

  lemma {:induction false} NothingLeft(w: World, missed: set<Mail>)
    ensures LeftOver(w, [], missed) == []
  {
  }

  lemma {:induction false} RunAllNone(w: World, p: real, s: Sys)
    ensures RunAll(w, p, s, []) == s
  {
  }

  lemma {:induction false} RunAllOne(w: World, p: real, s: Sys, act: SysAction)
    ensures RunAll(w, p, s, [act]) == Step(w, p, s, act)
  {
    RunAllNone(w, p, s);
    hide Step;
    assert [act][..0] == [];
  }

  // ------------------------------------------------------------------ the end of a run

  /** The state after a run and the last exchange, if of the mail that is not awaited missed is not there in time. */
  ghost function AtEnd(w: World, p: real, s: Sys, acts: seq<SysAction>, missed: set<Mail>, now: Tick): (r: Sys)
  {
    RunAll(w, p, s, acts + Deliveries(w, MailOf(w, p, s, acts), missed, 0, now))
  }

  /**
   * After a run that ends with an exchange, in whatever order things happened: in flight are exactly
   * the teleported vehicles that were missed on their way to a partition that is no neighbour of the
   * one they come from. Everyone else is drained.
   */
  lemma {:induction false} LastExchange(w: World, p: real, s: Sys, persons: Population, acts: seq<SysAction>, legs: set<(Part, Teleporter)>,
                                        missed: set<Mail>, now: Tick)
    requires ValidWorld(w) && p > 0.0 && Initial(w, s) && StartedFrom(w, s, persons) && OnlyLegs(acts, legs)
    ensures var r, left := AtEnd(w, p, s, acts, missed, now), LeftOver(w, MailOf(w, p, s, acts), missed);
            && Carries(left, r.flight)
            && (forall m :: m in left ==> m.k.Tele? && (m.from, m.k.t) in Begun(w, p, s, legs) && !NearBy(w.g, m.from, m.k.t))
            && Drained(r) + FlightIds(r.flight) == multiset(persons.Keys)
            && (Drained(r) == multiset(persons.Keys) <==> left == [])
  {
    hide Ok, ValidWorld, Initial, StartedFrom, RunAll, Deliveries, MailOf, Unawaited, Drained, FlightIds, Step, LeftOver, NearBy, Begun, OnlyLegs;
    var ms, before := MailOf(w, p, s, acts), RunAll(w, p, s, acts);
    var last := Deliveries(w, ms, missed, 0, now);
    var left := LeftOver(w, ms, missed);
    InitialOk(w, p, s);
    NothingInFlight(w, s);
    MailIsFlight(w, p, s, acts);
    RunKeepsOk(w, p, s, acts);
    DeliveriesEmptyTheFlight(w, p, before, ms, missed, 0, now);
    assert ms[0..] == ms && ms[..0] + left == left;
    RunAllConcat(w, p, s, acts, last);
    DrainedIsPopulation(w, p, s, persons, acts + last);
    LeftAreFar(w, p, s, acts, legs, missed);
    var r := RunAll(w, p, s, acts + last);
    if left != [] {
      assert left[0] in left && r.flight[0] == left[0].k && !r.flight[0].Update?;
    }
  }

  lemma {:induction false} NothingInFlight(w: World, s: Sys)
    requires ValidWorld(w) && Initial(w, s)
    ensures s.flight == []
  {
  }

  lemma {:induction false} LeftAreFar(w: World, p: real, s: Sys, acts: seq<SysAction>, legs: set<(Part, Teleporter)>, missed: set<Mail>)
    requires Ok(w, p, s) && s.flight == [] && OnlyLegs(acts, legs)
    ensures forall m :: m in LeftOver(w, MailOf(w, p, s, acts), missed) ==>
              m.k.Tele? && (m.from, m.k.t) in Begun(w, p, s, legs) && !NearBy(w.g, m.from, m.k.t)
  {
    hide RunAll, MailOf, LeftOver, Unawaited, NearBy, Begun, PacketOk, PartsOk, ValidWorld, OnlyLegs;
    var ms := MailOf(w, p, s, acts);
    SendersAreRight(w, p, s, acts, legs);
    MailIsFlight(w, p, s, acts);
    RunKeepsOk(w, p, s, acts);
    forall m | m in LeftOver(w, ms, missed)
      ensures m.k.Tele? && (m.from, m.k.t) in Begun(w, p, s, legs) && !NearBy(w.g, m.from, m.k.t)
    {
      assert m in ms;
      assert m.k in RunAll(w, p, s, acts).flight;
      UnawaitedIff(w, p, Begun(w, p, s, legs), m);
    }
  }

  /** Whatever happens in a run with these teleported legs, and whatever comes too late, draining yields the population. */
  ghost predicate EveryoneComesHome(w: World, p: real, s: Sys, persons: Population, legs: set<(Part, Teleporter)>)
  {
    forall acts, missed, now: Tick :: OnlyLegs(acts, legs) ==> Drained(AtEnd(w, p, s, acts, missed, now)) == multiset(persons.Keys)
  }

  /**
   * Nobody is ever missing at the end if and only if every teleported leg that can begin ends in the
   * partition where it begins or in a neighbour of it.
   */
  lemma {:induction false} EveryoneComesHomeIff(w: World, p: real, s: Sys, persons: Population, legs: set<(Part, Teleporter)>)
    requires ValidWorld(w) && p > 0.0 && Initial(w, s) && StartedFrom(w, s, persons)
    ensures EveryoneComesHome(w, p, s, persons, legs) <==>
            forall q, t :: (q, t) in legs && CanBegin(w, p, s, legs, q, t) ==> NearBy(w.g, q, t)
  {
    hide ValidWorld, Initial, StartedFrom, Drained, AtEnd, CanBegin, NearBy, OnlyLegs, LeftOver, MailOf, FlightIds;
    if forall q, t :: (q, t) in legs && CanBegin(w, p, s, legs, q, t) ==> NearBy(w.g, q, t) {
      forall acts, missed, now: Tick | OnlyLegs(acts, legs)
        ensures Drained(AtEnd(w, p, s, acts, missed, now)) == multiset(persons.Keys)
      {
        var left := LeftOver(w, MailOf(w, p, s, acts), missed);
        assert left != [] ==> left[0] in left;
        LastExchange(w, p, s, persons, acts, legs, missed, now);
      }
    } else {
      var q, t :| (q, t) in legs && CanBegin(w, p, s, legs, q, t) && !NearBy(w.g, q, t);
      FarLegIsMissed(w, p, s, persons, legs, q, t);
    }
  }

  /** A leg that ends far from where it begins can be missed: it begins in the last tick. */
  lemma {:induction false} FarLegIsMissed(w: World, p: real, s: Sys, persons: Population, legs: set<(Part, Teleporter)>, q: Part, t: Teleporter)
    requires ValidWorld(w) && p > 0.0 && Initial(w, s) && StartedFrom(w, s, persons)
    requires (q, t) in legs && CanBegin(w, p, s, legs, q, t) && !NearBy(w.g, q, t)
    ensures !EveryoneComesHome(w, p, s, persons, legs)
  {
    hide ValidWorld, Initial, StartedFrom, Drained, AtEnd, NearBy, CanAct, RunAll, LeftOver, MailOf, FlightIds, Begun;
    var front :| OnlyLegs(front, legs) && CanAct(w, p, RunAll(w, p, s, front), DepartTele(q, t));
    var acts, missed := front + [DepartTele(q, t)], {Mail(q, Tele(t))};
    MissedMail(w, p, s, front, q, t);
    LastExchange(w, p, s, persons, acts, legs, missed, 0);
    assert OnlyLegs(acts, legs) && Drained(AtEnd(w, p, s, acts, missed, 0)) != multiset(persons.Keys);
  }

  lemma {:induction false} MissedMail(w: World, p: real, s: Sys, front: seq<SysAction>, q: Part, t: Teleporter)
    requires CanAct(w, p, RunAll(w, p, s, front), DepartTele(q, t)) && !NearBy(w.g, q, t)
    ensures LeftOver(w, MailOf(w, p, s, front + [DepartTele(q, t)]), {Mail(q, Tele(t))}) != []
  {
    hide RunAll, LeftOver, Neighbour;
    var acts, m := front + [DepartTele(q, t)], Mail(q, Tele(t));
    assert acts[..|acts| - 1] == front;
    var ms := MailOf(w, p, s, acts);
    assert ms == MailOf(w, p, s, front) + Posted(q, [Tele(t)]);
    assert ms[|ms| - 1] == m && m in ms && Unawaited(w, m);
    assert m in LeftOver(w, ms, {m});
  }

  // ------------------------------------------------------------------ what can be checked before the run

  /** A leg on which its agent sets out: from the partition of the agent's first activity. */
  ghost predicate FirstLeg(g: RoadNet, persons: Population, q: Part, t: Teleporter)
    requires forall i :: i in persons ==> persons[i] in g.links
  {
    && t.id in persons && g.links[persons[t.id]].part == q
    && t.last in g.links && t.end in g.links && g.links[t.last].part == g.links[t.end].part
  }

  /** If no plan has a teleported leg to a partition that is no neighbour, nobody is ever missing. */
  lemma {:induction false} NearLegsSuffice(w: World, p: real, s: Sys, persons: Population, legs: set<(Part, Teleporter)>)
    requires ValidWorld(w) && p > 0.0 && Initial(w, s) && StartedFrom(w, s, persons)
    requires forall q, t :: (q, t) in legs ==> NearBy(w.g, q, t)
    ensures EveryoneComesHome(w, p, s, persons, legs)
  {
    hide EveryoneComesHome, NearBy, CanBegin, ValidWorld, Initial, StartedFrom;
    EveryoneComesHomeIff(w, p, s, persons, legs);
  }

  /** If the teleported legs are those on which agents set out, that is also necessary. */
  lemma {:induction false} FirstLegsMustBeNear(w: World, p: real, s: Sys, persons: Population, legs: set<(Part, Teleporter)>)
    requires ValidWorld(w) && p > 0.0 && Initial(w, s) && StartedFrom(w, s, persons)
    requires forall q, t :: (q, t) in legs ==> FirstLeg(w.g, persons, q, t)
    ensures EveryoneComesHome(w, p, s, persons, legs) <==> forall q, t :: (q, t) in legs ==> NearBy(w.g, q, t)
  {
    hide EveryoneComesHome, NearBy, CanBegin, ValidWorld, Initial;
    forall q, t | (q, t) in legs
      ensures CanBegin(w, p, s, legs, q, t)
    {
      FirstLegCanBegin(w, p, s, persons, legs, q, t);
    }
    EveryoneComesHomeIff(w, p, s, persons, legs);
  }

  lemma {:induction false} FirstLegCanBegin(w: World, p: real, s: Sys, persons: Population, legs: set<(Part, Teleporter)>, q: Part, t: Teleporter)
    requires StartedFrom(w, s, persons) && FirstLeg(w.g, persons, q, t)
    ensures CanBegin(w, p, s, legs, q, t)
  {
    RunAllNone(w, p, s);
    hide RunAll;
    assert t.id in StartingIn(persons, w.g, q).Keys;
    assert OnlyLegs([], legs) && CanAct(w, p, RunAll(w, p, s, []), DepartTele(q, t));
  }

  // ------------------------------------------------------------------ a run that misses someone

  /** Three partitions in a row, with one node each: 0 and 2 are no neighbours. */
  function Row(): (g: RoadNet)
  {
    RoadNet(
      map[0 := Node([2], [0], 0), 1 := Node([0], [1, 2], 1), 2 := Node([1], [], 2)],
      map[0 := NetLink(0, 1, 1.0, 1.0, 1.0, 1.0, 1), 1 := NetLink(1, 2, 1.0, 1.0, 1.0, 1.0, 2), 2 := NetLink(1, 0, 1.0, 1.0, 1.0, 1.0, 0)])
  }

  ghost function RowWorld(): (w: World)
  {
    World(Row(), Config(1, 1.0, 1.0, 10))
  }

  /** Agent id starts in partition 0; nobody else is there. */
  ghost function RowStart(id: nat): (s: Sys)
    requires ValidWorld(RowWorld())
  {
    Sys(map q: Part | q in {0, 1, 2} :: PartState(FromNetwork(Ctx(RowWorld(), q)), if q == 0 then multiset{id} else multiset{}, []), [])
  }

  lemma {:induction false} RowIsWorld()
    ensures ValidWorld(RowWorld()) && Wired(Row()) && RowWorld().g == Row() && !Neighbour(Row(), 0, 2)
  {
    hide Wired, ValidWorld, Neighbour;
    RowWired();
    RowIsValid();
    RowEndsApart();
  }

  lemma {:induction false} RowIsValid()
    ensures ValidWorld(RowWorld())
  {
    assert forall l :: l in Row().links ==> l == 0 || l == 1 || l == 2;
  }

  lemma {:induction false} RowEndsApart()
    ensures !Neighbour(Row(), 0, 2)
  {
    forall l | Split(Row(), l)
      ensures FromPart(Row(), l) == 1 || ToPart(Row(), l) == 1
    {
      assert l == 0 || l == 1 || l == 2;
    }
  }

  lemma {:induction false} RowWired()
    ensures Wired(Row())
  {
    hide NodeWired;
    RowNodeWired(0);
    RowNodeWired(1);
    RowNodeWired(2);
    assert forall b :: b in Row().nodes ==> b == 0 || b == 1 || b == 2;
  }

  lemma {:induction false} RowNodeWired(b: NodeId)
    requires b < 3
    ensures b in Row().nodes && NodeWired(Row(), b)
  {
  }

  /**
   * The agent's only action is to begin a teleported leg from partition 0 to partition 2 in the last
   * tick; the message is not there when partition 2 has what it waits for. Nobody is drained.
   */
  lemma {:induction false} OneIsMissing(p: real, id: nat, now: Tick)
    requires p > 0.0
    ensures ValidWorld(RowWorld())
    ensures var w, s, t := RowWorld(), RowStart(id), Teleporter(id, 1, 1);
            && Initial(w, s) && StartedFrom(w, s, map[id := 2])
            && var r := AtEnd(w, p, s, [DepartTele(0, t)], {Mail(0, Tele(t))}, now);
               Drained(r) == multiset{} && r.flight == [Tele(t)]
  {
    hide Drained, AtEnd, Initial, StartedFrom, LeftOver, Neighbour, ValidWorld, RowStart, Begun, MailOf, FlightIds, Row, RowWorld, NearBy;
    RowIsWorld();
    RowStarts(id);
    var w, s, t := RowWorld(), RowStart(id), Teleporter(id, 1, 1);
    var m := Mail(0, Tele(t));
    RowMail(p, id);
    LastExchange(w, p, s, map[id := 2], [DepartTele(0, t)], {(0, t)}, {m}, now);
    var r := AtEnd(w, p, s, [DepartTele(0, t)], {m}, now);
    assert r.flight == [Tele(t)];
    FlightIdsOne(Tele(t));
    NobodyElse(Drained(r), id, map[id := 2].Keys);
  }

  lemma {:induction false} NobodyElse(drained: multiset<nat>, id: nat, ids: set<nat>)
    requires ids == {id} && drained + multiset{id} == multiset(ids)
    ensures drained == multiset{}
  {
    assert |drained + multiset{id}| == |drained| + 1;
  }

  lemma {:induction false} RowStarts(id: nat)
    requires ValidWorld(RowWorld())
    ensures Initial(RowWorld(), RowStart(id)) && StartedFrom(RowWorld(), RowStart(id), map[id := 2])
  {
    hide FromNetwork, ValidWorld, StartingIn, Row, RowStart;
    RowKnown();
    RowParts(id);
    var s, persons: Population := RowStart(id), map[id := 2];
    forall q | q in s.parts
      ensures s.parts[q].idle == multiset(StartingIn(persons, Row(), q).Keys)
    {
      RowPopulation(id, q);
    }
  }

  lemma {:induction false} RowKnown()
    ensures 2 in Row().links && Row().links[2].part == 0
    ensures forall n :: n in Row().nodes ==> Row().nodes[n].part == n && (n == 0 || n == 1 || n == 2)
  {
  }

  lemma {:induction false} RowParts(id: nat)
    requires ValidWorld(RowWorld())
    ensures var s := RowStart(id);
            && s.flight == [] && s.parts.Keys == {0, 1, 2}
            && forall q :: q in s.parts ==>
                 s.parts[q] == PartState(FromNetwork(Ctx(RowWorld(), q)), if q == 0 then multiset{id} else multiset{}, [])
  {
    hide FromNetwork, ValidWorld;
  }

  lemma {:induction false} RowPopulation(id: nat, q: Part)
    ensures multiset(StartingIn(map[id := 2], Row(), q).Keys) == if q == 0 then multiset{id} else multiset{}
  {
    var ids := StartingIn(map[id := 2], Row(), q).Keys;
    assert Row().links[2].part == 0;
    assert ids == if q == 0 then {id} else {};
  }

  lemma {:induction false} RowMail(p: real, id: nat)
    requires ValidWorld(RowWorld()) && !Neighbour(Row(), 0, 2)
    ensures var w, s, t := RowWorld(), RowStart(id), Teleporter(id, 1, 1);
            LeftOver(w, MailOf(w, p, s, [DepartTele(0, t)]), {Mail(0, Tele(t))}) == [Mail(0, Tele(t))]
  {
    hide Neighbour, FromNetwork, ValidWorld;
    var w, s, t := RowWorld(), RowStart(id), Teleporter(id, 1, 1);
    var acts, m := [DepartTele(0, t)], Mail(0, Tele(t));
    assert acts[..0] == [] && RunAll(w, p, s, []) == s;
    assert CanAct(w, p, s, DepartTele(0, t));
    assert MailOf(w, p, s, acts) == [] + Posted(0, [Tele(t)]) == [m];
    assert Unawaited(w, m);
    assert LeftOver(w, [m], {m}) == [m] + LeftOver(w, [m][1..], {m});
  }
}
