/**
 * Vehicles smaller than the nudges of one round can be left behind, for every draw, at a node at
 * which all in-links but one only have vehicles that may not move yet.
 */
module NodeLimit {
  import opened Basics
  import opened FlowCap
  import opened Storage
  import opened StuckTimers
  import opened LinkSpec
  import LinkRuns
  import opened RoadNetwork
  import opened Links
  import opened NetSpec
  import opened NodeMoves
  import opened NodeLoop
  import NetInvariant

  /** The amount m, taken j times. */
  function Times(j: nat, m: real): (r: real)
  {
    if j == 0 then 0.0 else Times(j - 1, m) + m
  }

  lemma {:induction false} TimesIs(j: nat, m: real)
    ensures Times(j, m) == j as real * m
  {
    if j > 0 {
      TimesIs(j - 1, m);
      assert (j - 1) as real * m + m == j as real * m;
    }
  }

  lemma {:induction false} TimesGrow(i: nat, j: nat, m: real)
    requires i <= j && m > 0.0
    ensures Times(i, m) <= Times(j, m) && (i < j ==> Times(i, m) + m <= Times(j, m))
  {
    if i < j {
      TimesGrow(i, j - 1, m);
    }
  }

  // ------------------------------------------------------------------ one busy link

  /** The first links of ls have nothing to offer; the last one has vehicles of size m, all bound for the link next. */
  ghost predicate Busy(x: Context, net: NetState, ls: seq<LinkId>, next: LinkId, m: real, now: Tick)
  {
    && ls != [] && Queues(x, net, ls) && next !in ls
    && (forall i :: 0 <= i < |ls| - 1 ==> CapOf(x, ls[i]) == 0.0 && !OffersVeh(net.links[ls[i]]))
    && Laden(net, Last(ls), next, m, now)
  }

  function Last(ls: seq<LinkId>): (l: LinkId)
    requires ls != []
  {
    ls[|ls| - 1]
  }

  /** Link l holds vehicles of size m in its buffer, and the link next has room for all of them. */
  ghost predicate Laden(net: NetState, l: LinkId, next: LinkId, m: real, now: Tick)
  {
    && next != l && next in net.links && !net.links[next].In?
    && l in net.links && !net.links[l].Out?
    && (net.links[l].s.timer.Some? ==> net.links[l].s.timer.value <= now)
    && (forall v :: v in net.links[l].s.buffer ==> v.pce == m && v.PeekNext() == Some(next))
    && StorageOf(net.links[next]).used + Times(|net.links[l].s.buffer|, m) <= StorageOf(net.links[next]).max
  }

  /** The link has these many vehicles in its buffer, and this flow capacity. */
  ghost predicate Holds(net: NetState, l: LinkId, count: nat, rem: real)
  {
    l in net.links && !net.links[l].Out? && |net.links[l].s.buffer| == count && Rem(net, l) == rem
  }

  /** Asked, the link may release its head. */
  lemma {:induction false} MayRelease(x: Context, net: NetState, l: LinkId, next: LinkId, m: real, now: Tick)
    requires Laden(net, l, next, m, now) && m > 0.0 && OffersVeh(net.links[l])
    ensures var looked := Apply(x, net, Look(l, now));
            && ShouldMove(looked, l, now) && NextOf(looked, l) == next && Laden(looked, l, next, m, now)
            && looked == Put(net, l, looked.links[l]) && looked.links[l].s.buffer == net.links[l].s.buffer && Rem(looked, l) == Rem(net, l)
            && !Blocked(net, l, now)
  {
    TimesGrow(0, |net.links[l].s.buffer|, m);
    assert net.links[l].s.buffer[0] in net.links[l].s.buffer;
    hide Times;
  }

  /** A release takes one vehicle and its size, and the next link still has room for the others. */
  lemma {:induction false} Released(x: Context, net: NetState, l: LinkId, next: LinkId, m: real, now: Tick)
    requires Laden(net, l, next, m, now) && m > 0.0 && ShouldMove(net, l, now) && NextOf(net, l) == next
    ensures var moved := Apply(x, net, Move(l, now));
            && Laden(moved, l, next, m, now) && moved.links.Keys == net.links.Keys
            && Holds(moved, l, |net.links[l].s.buffer| - 1, Rem(net, l) - m)
            && forall k :: k in net.links && k != l && k != next ==> moved.links[k] == net.links[k]
  {
    MoveParts(net, l, now);
    MoveFlow(net, l, now);
    assert net.links[l].s.buffer[0] in net.links[l].s.buffer;
    assert forall v :: v in net.links[l].s.buffer[1..] ==> v in net.links[l].s.buffer;
    hide MoveVehicle, TravelTicks;
  }

  // ------------------------------------------------------------------ one round

  /** All links but the last are exhausted, or none is. */
  ghost predicate Front(r: Round, all: bool)
  {
    r.ex != [] && !r.ex[|r.ex| - 1] && forall k :: 0 <= k < |r.ex| - 1 ==> r.ex[k] == all
  }

  /** Looking at a link that offers nothing changes nothing. */
  lemma {:induction false} IdleLook(x: Context, net: NetState, l: LinkId, now: Tick)
    requires l in net.links && !net.links[l].Out? && !OffersVeh(net.links[l])
    ensures Apply(x, net, Look(l, now)) == net && !ShouldMove(net, l, now)
  {
    assert net.links[l := net.links[l]] == net.links;
  }

  /** The first i links of the first round become exhausted, and nothing else happens. */
  lemma {:induction false} FrontExhausts(x: Context, net: NetState, ls: seq<LinkId>, next: LinkId, m: real, i: nat, r: Round, drawn: real, now: Tick)
    requires Busy(x, net, ls, next, m, now) && AllKnown(x, ls) && i < |ls| == |r.ex| && Front(r, false)
    ensures var s := Visits(x, net, ls, i, r, drawn, now);
            s.0 == net && s.1.avail == r.avail && s.1.sel == r.sel && forall k :: 0 <= k < |ls| ==> s.1.ex[k] == (k < i)
  {
    hide Apply, ShouldMove, CapOf, Laden, OffersVeh;
    if i > 0 {
      FrontExhausts(x, net, ls, next, m, i - 1, r, drawn, now);
      assert ls[i - 1] in ls;
      IdleLook(x, net, ls[i - 1], now);
    }
  }

  /** The first i links of a later round are nudges. */
  lemma {:induction false} FrontNudges(x: Context, net: NetState, ls: seq<LinkId>, i: nat, r: Round, drawn: real, now: Tick)
    requires AllKnown(x, ls) && i < |ls| == |r.ex| && Front(r, true)
    ensures Visits(x, net, ls, i, r, drawn, now) == (net, r.(avail := r.avail - Times(i, 0.000001)))
  {
    hide Apply, ShouldMove, CapOf;
    if i > 0 {
      FrontNudges(x, net, ls, i - 1, r, drawn, now);
    }
  }

  /** What a round takes from the available capacity: nothing in the first one, then the nudges. */
  function Fee(all: bool, n: nat): (r: real)
  {
    if all && n > 0 then Times(n - 1, 0.000001) else 0.0
  }

  /** A whole round: the last link releases one vehicle, whatever was drawn. */
  lemma {:induction false} BusyRound(x: Context, net: NetState, ls: seq<LinkId>, next: LinkId, m: real, r: Round, all: bool, drawn: real, now: Tick)
    requires Busy(x, net, ls, next, m, now) && AllKnown(x, ls) && |ls| == |r.ex| && Front(r, all) && m > 0.0
    requires r.sel >= 0.0 && CapOf(x, Last(ls)) >= 0.0 && drawn <= CapOf(x, Last(ls)) && OffersVeh(net.links[Last(ls)])
    ensures var s := Visits(x, net, ls, |ls|, r, drawn, now);
            && Busy(x, s.0, ls, next, m, now) && Front(s.1, true) && s.1.sel >= 0.0 && s.1.avail == r.avail - Fee(all, |ls|)
            && Holds(s.0, Last(ls), |net.links[Last(ls)].s.buffer| - 1, Rem(net, Last(ls)) - m)
  {
    hide CapOf, Apply, ShouldMove, OffersVeh, Laden, AllKnown, Visits, Queues, Fee;
    var l := Last(ls);
    FrontRound(x, net, ls, next, m, r, all, drawn, now);
    var f := Visits(x, net, ls, |ls| - 1, r, drawn, now);
    MayRelease(x, net, l, next, m, now);
    var looked := Apply(x, net, Look(l, now));
    Released(x, looked, l, next, m, now);
    LastVisit(x, net, ls, r, drawn, now);
    OthersIdle(x, net, looked, Apply(x, looked, Move(l, now)), ls, next, m, now);
  }

  /** All links but the last. */
  lemma {:induction false} FrontRound(x: Context, net: NetState, ls: seq<LinkId>, next: LinkId, m: real, r: Round, all: bool, drawn: real, now: Tick)
    requires Busy(x, net, ls, next, m, now) && AllKnown(x, ls) && |ls| == |r.ex| && Front(r, all)
    ensures var f := Visits(x, net, ls, |ls| - 1, r, drawn, now);
            f.0 == net && f.1.avail == r.avail - Fee(all, |ls|) && f.1.sel == r.sel && Front(f.1, true)
  {
    hide CapOf, Laden, AllKnown, Visits, Queues, OffersVeh, Times;
    if all {
      FrontNudges(x, net, ls, |ls| - 1, r, drawn, now);
    } else {
      FrontExhausts(x, net, ls, next, m, |ls| - 1, r, drawn, now);
    }
  }

  /** The last link of a round. */
  lemma {:induction false} LastVisit(x: Context, net: NetState, ls: seq<LinkId>, r: Round, drawn: real, now: Tick)
    requires AllKnown(x, ls) && ls != [] && |ls| == |r.ex|
    ensures var f := Visits(x, net, ls, |ls| - 1, r, drawn, now);
            var looked := Apply(x, f.0, Look(Last(ls), now));
            !f.1.ex[|ls| - 1] && ShouldMove(looked, Last(ls), now) && f.1.sel >= 0.0 && drawn <= CapOf(x, Last(ls)) ==>
              Visits(x, net, ls, |ls|, r, drawn, now) == (Apply(x, looked, Move(Last(ls), now)), f.1.(sel := f.1.sel + CapOf(x, Last(ls))))
  {
    hide Apply, ShouldMove, CapOf;
  }

  lemma {:induction false} OthersIdle(x: Context, net: NetState, looked: NetState, moved: NetState, ls: seq<LinkId>, next: LinkId, m: real, now: Tick)
    requires Busy(x, net, ls, next, m, now) && Laden(moved, Last(ls), next, m, now)
    requires Last(ls) in looked.links && looked.links == net.links[Last(ls) := looked.links[Last(ls)]] && moved.links.Keys == looked.links.Keys
    requires forall k :: k in looked.links && k != Last(ls) && k != next ==> moved.links[k] == looked.links[k]
    ensures Busy(x, moved, ls, next, m, now)
  {
    hide CapOf, OffersVeh, Laden;
    forall i | 0 <= i < |ls| - 1
      ensures moved.links[ls[i]] == net.links[ls[i]]
    {
      assert ls[i] in ls && ls[i] != ls[|ls| - 1];
    }
    forall l | l in ls
      ensures l in moved.links && !moved.links[l].Out?
    {
      var i :| 0 <= i < |ls| && ls[i] == l;
      if i == |ls| - 1 {
        LadenQueue(moved, l, next, m, now);
      }
    }
  }

  lemma {:induction false} LadenQueue(net: NetState, l: LinkId, next: LinkId, m: real, now: Tick)
    requires Laden(net, l, next, m, now)
    ensures l in net.links && !net.links[l].Out?
  {
  }

  // ------------------------------------------------------------------ all rounds

  /** How far k rounds bring the loop: each takes a vehicle, and each but the first takes the fee. */
  ghost predicate Brought(x: Context, net: NetState, ls: seq<LinkId>, next: LinkId, m: real, now: Tick, s: (NetState, Round), j: nat, count: nat, cap: real)
  {
    && Busy(x, s.0, ls, next, m, now) && |s.1.ex| == |ls| && Front(s.1, j > 0) && s.1.sel >= 0.0 && j <= count
    && CapOf(x, Last(ls)) == cap
    && Holds(s.0, Last(ls), count - j, cap - Times(j, m))
    && s.1.avail == cap - (if j == 0 then 0.0 else Times(j - 1, Fee(true, |ls|)))
  }

  /** The size m, the number of in-links and the number k of nudged rounds leave capacity behind. */
  predicate LeavesCapacity(n: nat, m: real, k: nat)
  {
    n > 1 && m > 0.0 && Times(k, Fee(true, n)) > Times(k + 1, m) + 0.0000000001
  }

  lemma {:induction false} FeeIs(n: nat)
    requires n > 0
    ensures Fee(true, n) == NudgesPerRound(n)
  {
    TimesIs(n - 1, 0.000001);
  }

  lemma {:induction false} BusyRounds(x: Context, net: NetState, ls: seq<LinkId>, next: LinkId, m: real, k: nat, draws: seq<real>, now: Tick)
    requires LeavesCapacity(|ls|, m, k) && |draws| <= k + 1 && forall i :: 0 <= i < |draws| ==> 0.0 <= draws[i] < 1.0
    requires AllKnown(x, ls)
    requires Brought(x, net, ls, next, m, now, (net, Opening(x, ls)), 0, k + 2, Times(k, Fee(true, |ls|)))
    ensures Brought(x, net, ls, next, m, now, Rounds(x, net, ls, Opening(x, ls), draws, now), |draws|, k + 2, Times(k, Fee(true, |ls|)))
    ensures GoesOn(x, net, ls, Opening(x, ls), draws, now)
    decreases |draws|
  {
    hide Busy, Visits, Times, Opening, CapOf, Rounds, Brought, LeavesCapacity, Fee;
    var r := Opening(x, ls);
    if draws == [] {
      NoRounds(x, net, ls, r, now);
    } else {
      var j := |draws| - 1;
      BusyRounds(x, net, ls, next, m, k, draws[..j], now);
      var s := Rounds(x, net, ls, r, draws[..j], now);
      StillAvailable(x, net, ls, next, m, now, s, j, k);
      OneMoreRound(x, net, ls, r, draws[..j], draws[j], now);
      assert draws == draws[..j] + [draws[j]];
      ShareBelow(draws[j], s.1.avail);
      BroughtOn(x, net, ls, next, m, k, s, j, Share(draws[j], s.1.avail), now);
    }
  }

  /** Up to the last round there is capacity available, and the last link still offers a vehicle. */
  lemma {:induction false} StillAvailable(x: Context, net: NetState, ls: seq<LinkId>, next: LinkId, m: real, now: Tick, s: (NetState, Round), j: nat, k: nat)
    requires LeavesCapacity(|ls|, m, k) && j <= k + 1 && Brought(x, net, ls, next, m, now, s, j, k + 2, Times(k, Fee(true, |ls|)))
    ensures OffersVeh(s.0.links[Last(ls)]) && s.1.avail <= CapOf(x, Last(ls)) && CapOf(x, Last(ls)) >= 0.0
    ensures if j <= k then s.1.avail > 0.0000000001 else s.1.avail <= 0.0000000001
  {
    hide Busy, Opening, CapOf, Times;
    var fee := Fee(true, |ls|);
    FeeIs(|ls|);
    assert fee >= 0.000001;
    assert k > 0 by {
      TimesIs(k, fee);
      TimesIs(k + 1, m);
    }
    TimesGrow(j, k + 1, m);
    if j > 0 {
      TimesGrow(j - 1, k, fee);
      TimesGrow(0, j - 1, fee);
    }
    TimesGrow(0, k, fee);
    TimesIs(0, fee);
  }

  /** One more round. */
  lemma {:induction false} BroughtOn(x: Context, net: NetState, ls: seq<LinkId>, next: LinkId, m: real, k: nat, s: (NetState, Round), j: nat,
                                     drawn: real, now: Tick)
    requires LeavesCapacity(|ls|, m, k) && AllKnown(x, ls) && j <= k && Brought(x, net, ls, next, m, now, s, j, k + 2, Times(k, Fee(true, |ls|)))
    requires drawn <= CapOf(x, Last(ls))
    ensures Brought(x, net, ls, next, m, now, Visits(x, s.0, ls, |ls|, s.1, drawn, now), j + 1, k + 2, Times(k, Fee(true, |ls|)))
  {
    hide Busy, Visits, CapOf, AllKnown, Fee;
    StillAvailable(x, net, ls, next, m, now, s, j, k);
    BusyRound(x, s.0, ls, next, m, s.1, j > 0, drawn, now);
    assert Fee(false, |ls|) == 0.0 by {
      NoFee(|ls|);
    }
  }

  lemma {:induction false} NoFee(n: nat)
    ensures Fee(false, n) == 0.0
  {
  }

  lemma {:induction false} OpeningIs(x: Context, ls: seq<LinkId>)
    requires AllKnown(x, ls) && ls != [] && forall i :: 0 <= i < |ls| - 1 ==> CapOf(x, ls[i]) == 0.0
    ensures Opening(x, ls).avail == CapOf(x, Last(ls)) && Opening(x, ls).sel == 0.0 && Front(Opening(x, ls), false)
  {
    hide CapOf;
    NoCapacity(Caps(x, ls), NoneExhausted(|ls|), |ls| - 1);
  }

  lemma {:induction false} NoCapacity(caps: seq<real>, ex: seq<bool>, j: nat)
    requires |caps| == |ex| && j <= |caps| && forall i :: 0 <= i < j ==> caps[i] == 0.0
    ensures OpenCap(caps, ex, j) == 0.0
  {
    if j > 0 {
      NoCapacity(caps, ex, j - 1);
    }
  }

  lemma {:induction false} BusyParts(x: Context, net: NetState, ls: seq<LinkId>, next: LinkId, m: real, now: Tick)
    requires Busy(x, net, ls, next, m, now) && AllKnown(x, ls)
    ensures Laden(net, Last(ls), next, m, now) && forall i :: 0 <= i < |ls| - 1 ==> CapOf(x, ls[i]) == 0.0
  {
  }

  /** For every draw the loop ends after k + 1 rounds with a vehicle left that may move. */
  lemma {:induction false} StopsEarly(x: Context, net: NetState, ls: seq<LinkId>, next: LinkId, m: real, k: nat, draws: seq<real>, now: Tick)
    requires LeavesCapacity(|ls|, m, k) && |draws| == k + 1 && forall i :: 0 <= i < |draws| ==> 0.0 <= draws[i] < 1.0
    requires AllKnown(x, ls) && Busy(x, net, ls, next, m, now)
    requires CapOf(x, Last(ls)) == Times(k, Fee(true, |ls|)) && Holds(net, Last(ls), k + 2, CapOf(x, Last(ls)))
    ensures EndsWith(x, net, ls, Opening(x, ls), draws, now)
    ensures !Blocked(Rounds(x, net, ls, Opening(x, ls), draws, now).0, Last(ls), now)
  {
    var r := Opening(x, ls);
    hide Busy, Opening, Rounds, CapOf, Blocked, AllKnown, Laden, Fee;
    BusyParts(x, net, ls, next, m, now);
    OpeningIs(x, ls);
    BusyRounds(x, net, ls, next, m, k, draws, now);
    var s := Rounds(x, net, ls, r, draws, now);
    StillAvailable(x, net, ls, next, m, now, s, k + 1, k);
    BusyParts(x, s.0, ls, next, m, now);
    MayRelease(x, s.0, Last(ls), next, m, now);
  }
}
