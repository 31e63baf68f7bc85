/** Trips as spans of a flat plan, and edits that replace one trip without disturbing the others. */
module TripSpans {
  import opened Basics

  type Mode = nat
  type VehicleId = nat
  type Coord = (real, real, real)

  datatype PlanActivity = PlanActivity(interaction: bool, link: LinkId, coord: Option<Coord>, endTime: Option<nat>, maxDur: Option<nat>)

  datatype Distance = Finite(value: real) | NotFinite

  datatype GenericRoute = GenericRoute(start: LinkId, end: LinkId, travTime: Option<nat>, distance: Option<Distance>, vehicle: Option<VehicleId>)

  datatype Route = Generic(generic: GenericRoute) | OnNetwork(generic: GenericRoute, links: seq<LinkId>) | Pt(generic: GenericRoute)

  datatype PlanLeg = PlanLeg(mode: Mode, routingMode: Option<Mode>, travTime: Option<nat>, route: Option<Route>)

  datatype Element = Act(act: PlanActivity) | Leg(leg: PlanLeg)

  /** A trip, by the indices of the activities it leads from and to. */
  datatype TripSpan = TripSpan(origin: int, destination: int)

  /** Trips begin and end at activities that are not merely stages between two legs. */
  predicate Main(e: Element)
  {
    e.Act? && !e.act.interaction
  }

  /** What makes (o, d) a trip: two main activities with something, but no main activity, in between. */
  ghost predicate IsTrip(es: seq<Element>, t: TripSpan)
  {
    && 0 <= t.origin && t.origin + 1 < t.destination < |es|
    && Main(es[t.origin]) && Main(es[t.destination])
    && forall k :: t.origin < k < t.destination ==> !Main(es[k])
  }

  function LastMain(es: seq<Element>): (i: int)
    ensures -1 <= i < |es|
    ensures i >= 0 ==> Main(es[i])
    ensures forall k :: i < k < |es| ==> !Main(es[k])
  {
    if es == [] then -1
    else if Main(es[|es| - 1]) then |es| - 1
    else LastMain(es[..|es| - 1])
  }

  /** The trips of a plan. */
  function Trips(es: seq<Element>): (ts: seq<TripSpan>)
  {
    if es == [] then []
    else
      var n := |es| - 1;
      var o := LastMain(es[..n]);
      if Main(es[n]) && o != -1 && n - o > 1 then Trips(es[..n]) + [TripSpan(o, n)] else Trips(es[..n])
  }

  method GetTripSpans(es: seq<Element>) returns (trips: seq<TripSpan>)
    ensures trips == Trips(es)
  {
    trips := [];
    var origin := -1;
    for i := 0 to |es|
      invariant trips == Trips(es[..i]) && origin == LastMain(es[..i])
    {
      assert es[..i + 1][..i] == es[..i] && es[..i + 1][i] == es[i];
      if !Main(es[i]) {
        continue;
      }
      if origin == -1 {
        origin := i;
        continue;
      }
      if i - origin > 1 {
        trips := trips + [TripSpan(origin, i)];
      }
      origin := i;
    }
    assert es[..|es|] == es;
  }

  // ------------------------------------------------------------------ what the spans are

  /** Every trip ends where the next one begins, or before. */
  ghost predicate InSequence(ts: seq<TripSpan>)
  {
    forall i, j :: 0 <= i < j < |ts| ==> ts[i].destination <= ts[j].origin
  }

  ghost predicate Proper(ts: seq<TripSpan>)
  {
    forall i :: 0 <= i < |ts| ==> ts[i].origin < ts[i].destination
  }

  lemma {:induction false} PrefixTrips(es: seq<Element>, n: nat, t: TripSpan)
    requires n <= |es|
    ensures IsTrip(es[..n], t) <==> IsTrip(es, t) && t.destination < n
  {
    var p := es[..n];
    assert forall k :: 0 <= k < n ==> p[k] == es[k];
  }

  /** The computed spans are exactly the trips of the plan, each once and in order. */
  lemma {:induction false} TripsAreTrips(es: seq<Element>)
    ensures forall t :: t in Trips(es) <==> IsTrip(es, t)
    ensures InSequence(Trips(es)) && Proper(Trips(es))
    ensures forall t :: t in Trips(es) ==> t.destination < |es|
  {
    if es != [] {
      var n := |es| - 1;
      TripsAreTrips(es[..n]);
      forall t
        ensures t in Trips(es) <==> IsTrip(es, t)
      {
        PrefixTrips(es, n, t);
        LastTrip(es, t);
      }
      var front := Trips(es[..n]);
      forall i | 0 <= i < |front|
        ensures front[i].destination <= LastMain(es[..n])
      {
        assert front[i] in front;
        assert IsTrip(es[..n], front[i]);
      }
    }
  }

  lemma {:induction false} LastTrip(es: seq<Element>, t: TripSpan)
    requires es != []
    ensures var n := |es| - 1;
            var o := LastMain(es[..n]);
            IsTrip(es, t) && t.destination == n <==> t == TripSpan(o, n) && Main(es[n]) && o != -1 && n - o > 1
  {
    var n := |es| - 1;
    var o := LastMain(es[..n]);
    assert forall k :: 0 <= k < n ==> es[..n][k] == es[k];
  }

  /** Two such sequences with the same members are the same. */
  lemma {:induction false} SameMembers(a: seq<TripSpan>, b: seq<TripSpan>)
    requires InSequence(a) && InSequence(b) && Proper(a) && Proper(b)
    requires forall t :: t in a <==> t in b
    ensures a == b
  {
    if a == [] {
      assert forall i :: 0 <= i < |b| ==> b[i] in b;
    } else {
      assert a[0] in a;
      assert a[0] in b;
      assert b[0] in b;
      FirstIsFirst(a, b);
      RestOf(a);
      RestOf(b);
      SameMembers(a[1..], b[1..]);
      assert a == [a[0]] + a[1..] && b == [b[0]] + b[1..];
    }
  }

  lemma {:induction false} FirstIsFirst(a: seq<TripSpan>, b: seq<TripSpan>)
    requires InSequence(a) && InSequence(b) && Proper(a) && Proper(b) && a != [] && b != []
    requires a[0] in b && b[0] in a
    ensures a[0] == b[0]
  {
    var i :| 0 <= i < |b| && b[i] == a[0];
    var j :| 0 <= j < |a| && a[j] == b[0];
  }

  lemma {:induction false} RestOf(a: seq<TripSpan>)
    requires InSequence(a) && Proper(a) && a != []
    ensures InSequence(a[1..]) && Proper(a[1..])
    ensures forall t :: t in a[1..] <==> t in a && t != a[0]
  {
    forall t
      ensures t in a[1..] <==> t in a && t != a[0]
    {
      if t in a[1..] {
        var i :| 0 <= i < |a[1..]| && a[1..][i] == t;
        assert a[i + 1] == t;
        assert a[0].destination <= a[i + 1].origin;
      }
      if t in a && t != a[0] {
        var i :| 0 <= i < |a| && a[i] == t;
        assert a[1..][i - 1] == t;
      }
    }
  }

  // ------------------------------------------------------------------ replacing a trip

  function TripElements(es: seq<Element>, t: TripSpan): (r: seq<Element>)
    requires 0 <= t.origin < t.destination < |es|
  {
    es[t.origin + 1..t.destination]
  }

  function Spliced(es: seq<Element>, t: TripSpan, inserted: seq<Element>): (r: seq<Element>)
    requires 0 <= t.origin < t.destination < |es|
  {
    es[..t.origin + 1] + inserted + es[t.destination..]
  }

  /** By how much later elements move. */
  function Shift(t: TripSpan, inserted: seq<Element>): (d: int)
  {
    |inserted| - (t.destination - t.origin - 1)
  }

  function Moved(t: TripSpan, d: int): (r: TripSpan)
  {
    TripSpan(t.origin + d, t.destination + d)
  }

  ghost predicate NoMain(es: seq<Element>)
  {
    forall i :: 0 <= i < |es| ==> !Main(es[i])
  }

  /** Where the elements of the old plan are in the new one. */
  lemma {:induction false} SplicedAt(es: seq<Element>, t: TripSpan, inserted: seq<Element>)
    requires 0 <= t.origin < t.destination < |es|
    ensures var r, d := Spliced(es, t, inserted), Shift(t, inserted);
            && |r| == |es| + d
            && (forall k :: 0 <= k <= t.origin ==> r[k] == es[k])
            && (forall k :: t.destination <= k < |es| ==> r[k + d] == es[k])
            && (forall k :: 0 <= k < |inserted| ==> r[t.origin + 1 + k] == inserted[k])
  {
  }

  /** Which element is at place k of the new plan. */
  lemma {:induction false} SplicedIndex(es: seq<Element>, t: TripSpan, inserted: seq<Element>, k: nat)
    requires 0 <= t.origin < t.destination < |es| && k < |Spliced(es, t, inserted)|
    ensures |Spliced(es, t, inserted)| == |es| + Shift(t, inserted)
    ensures Spliced(es, t, inserted)[k] ==
            if k <= t.origin then es[k]
            else if k < t.destination + Shift(t, inserted) then inserted[k - t.origin - 1]
            else es[k - Shift(t, inserted)]
  {
  }

  /** The span that takes the place of span u when trip t is replaced. */
  function Now(u: TripSpan, t: TripSpan, inserted: seq<Element>): (r: TripSpan)
  {
    var d := Shift(t, inserted);
    if u.destination <= t.origin then u
    else if u == t then TripSpan(t.origin, t.destination + d)
    else Moved(u, d)
  }

  /** A trip of the old plan becomes a trip of the new one, and every trip of the new one was one. */
  lemma {:induction false} TripsCorrespond(es: seq<Element>, t: TripSpan, inserted: seq<Element>, u: TripSpan)
    requires IsTrip(es, t) && NoMain(inserted) && inserted != []
    ensures IsTrip(es, u) ==> (u == t || u.destination <= t.origin || t.destination <= u.origin)
    ensures IsTrip(es, u) ==> IsTrip(Spliced(es, t, inserted), Now(u, t, inserted))
  {
    if IsTrip(es, u) {
      Apart(es, t, u);
      NowWithin(es, t, inserted, u);
      var r, v := Spliced(es, t, inserted), Now(u, t, inserted);
      hide Spliced;
      SplicedIndex(es, t, inserted, v.origin);
      SplicedIndex(es, t, inserted, v.destination);
      forall k | v.origin < k < v.destination
        ensures !Main(r[k])
      {
        SplicedIndex(es, t, inserted, k);
      }
    }
  }

  lemma {:induction false} NowWithin(es: seq<Element>, t: TripSpan, inserted: seq<Element>, u: TripSpan)
    requires 0 <= t.origin < t.destination < |es| && 0 <= u.origin < u.destination < |es|
    requires u == t || u.destination <= t.origin || t.destination <= u.origin
    ensures var v := Now(u, t, inserted);
            && 0 <= v.origin < v.destination < |Spliced(es, t, inserted)|
            && v.destination - v.origin - 1 == (if u == t then |inserted| else u.destination - u.origin - 1)
  {
  }

  lemma {:induction false} Apart(es: seq<Element>, t: TripSpan, u: TripSpan)
    requires IsTrip(es, t) && IsTrip(es, u)
    ensures u == t || u.destination <= t.origin || t.destination <= u.origin
  {
  }

  lemma {:induction false} WasTrip(es: seq<Element>, t: TripSpan, inserted: seq<Element>, v: TripSpan)
    requires IsTrip(es, t) && NoMain(inserted) && inserted != [] && IsTrip(Spliced(es, t, inserted), v)
    ensures exists u :: IsTrip(es, u) && v == Now(u, t, inserted)
  {
    var r, d := Spliced(es, t, inserted), Shift(t, inserted);
    hide Spliced;
    SplicedIndex(es, t, inserted, t.origin);
    SplicedIndex(es, t, inserted, t.destination + d);
    SplicedIndex(es, t, inserted, v.origin);
    SplicedIndex(es, t, inserted, v.destination);
    var u := if v.destination <= t.origin then v else if v.origin == t.origin then t else TripSpan(v.origin - d, v.destination - d);
    forall k | u.origin < k < u.destination && u != t
      ensures !Main(es[k])
    {
      SplicedIndex(es, t, inserted, if u == v then k else k + d);
    }
    assert IsTrip(es, u) && v == Now(u, t, inserted);
  }

  function AllNow(ts: seq<TripSpan>, t: TripSpan, inserted: seq<Element>): (r: seq<TripSpan>)
    ensures |r| == |ts| && forall i :: 0 <= i < |ts| ==> r[i] == Now(ts[i], t, inserted)
  {
    seq(|ts|, i requires 0 <= i < |ts| => Now(ts[i], t, inserted))
  }

  /**
   * Locality of an edit: replacing a trip by something without main activities leaves the number of
   * trips as it is, keeps every earlier span, adapts the span itself and shifts every later one.
   */
  lemma {:induction false} ReplaceIsLocal(es: seq<Element>, i: nat, inserted: seq<Element>)
    requires i < |Trips(es)| && inserted != [] && NoMain(inserted)
    ensures var t := Trips(es)[i];
            && IsTrip(es, t)
            && Trips(Spliced(es, t, inserted)) == AllNow(Trips(es), t, inserted)
  {
    var ts := Trips(es);
    var t := ts[i];
    TripsAreTrips(es);
    assert t in ts;
    var r := Spliced(es, t, inserted);
    TripsAreTrips(r);
    var ns := AllNow(ts, t, inserted);
    hide Trips, Spliced, IsTrip, Now;
    forall u | u in ns
      ensures u in Trips(r)
    {
      var j :| 0 <= j < |ns| && ns[j] == u;
      assert ts[j] in ts;
      TripsCorrespond(es, t, inserted, ts[j]);
    }
    forall v | v in Trips(r)
      ensures v in ns
    {
      WasTrip(es, t, inserted, v);
      var u :| IsTrip(es, u) && v == Now(u, t, inserted);
      assert u in ts;
      var j :| 0 <= j < |ts| && ts[j] == u;
      assert ns[j] == v;
    }
    StillInSequence(es, ts, t, inserted);
    SameMembers(ns, Trips(r));
  }

  lemma {:induction false} StillInSequence(es: seq<Element>, ts: seq<TripSpan>, t: TripSpan, inserted: seq<Element>)
    requires InSequence(ts) && Proper(ts) && IsTrip(es, t) && inserted != []
    requires forall u :: u in ts ==> IsTrip(es, u)
    ensures InSequence(AllNow(ts, t, inserted)) && Proper(AllNow(ts, t, inserted))
  {
    var ns := AllNow(ts, t, inserted);
    forall i | 0 <= i < |ns|
      ensures ns[i].origin < ns[i].destination
    {
      assert ts[i] in ts;
      Apart(es, t, ts[i]);
    }
    forall i, j | 0 <= i < j < |ns|
      ensures ns[i].destination <= ns[j].origin
    {
      assert ts[i] in ts && ts[j] in ts;
      Apart(es, t, ts[i]);
      Apart(es, t, ts[j]);
      assert ts[i].destination <= ts[j].origin;
      assert ts[i].origin < ts[i].destination && ts[j].origin < ts[j].destination;
    }
  }

  /** The replaced trip consists of the new elements, and all others of the elements they had. */
  lemma {:induction false} OthersUntouched(es: seq<Element>, i: nat, inserted: seq<Element>, j: nat)
    requires i < |Trips(es)| && j < |Trips(es)| && inserted != [] && NoMain(inserted)
    ensures var t, u := Trips(es)[i], Trips(es)[j];
            && IsTrip(es, t) && IsTrip(es, u)
            && var r := Spliced(es, t, inserted);
               && |Trips(r)| == |Trips(es)|
               && var v := Trips(r)[j];
                  && IsTrip(r, v)
                  && TripElements(r, v) == (if j == i then inserted else TripElements(es, u))
                  && r[v.origin] == es[u.origin] && r[v.destination] == es[u.destination]
  {
    var ts := Trips(es);
    var t, u := ts[i], ts[j];
    TripsAreTrips(es);
    assert t in ts && u in ts;
    ReplaceIsLocal(es, i, inserted);
    TripsCorrespond(es, t, inserted, u);
    assert j < i ==> ts[j].destination <= ts[i].origin;
    assert i < j ==> ts[i].destination <= ts[j].origin;
    assert Trips(Spliced(es, t, inserted))[j] == Now(u, t, inserted);
    hide Trips, InSequence, Proper;
    ElementsNow(es, t, inserted, u);
  }

  /** What a trip of the old plan consists of in the new one. */
  lemma {:induction false} ElementsNow(es: seq<Element>, t: TripSpan, inserted: seq<Element>, u: TripSpan)
    requires 0 <= t.origin < t.destination < |es| && 0 <= u.origin < u.destination < |es|
    requires u == t || u.destination <= t.origin || t.destination <= u.origin
    ensures var r, v := Spliced(es, t, inserted), Now(u, t, inserted);
            && 0 <= v.origin < v.destination < |r|
            && TripElements(r, v) == (if u == t then inserted else TripElements(es, u))
            && r[v.origin] == es[u.origin] && r[v.destination] == es[u.destination]
  {
    hide Spliced;
    NowWithin(es, t, inserted, u);
    EndsNow(es, t, inserted, u);
    if u == t {
      OwnElements(es, t, inserted);
    } else if u.destination <= t.origin {
      EarlierElements(es, t, inserted, u);
    } else {
      LaterElements(es, t, inserted, u);
    }
  }

  /** The activities that a trip leads from and to stay the same. */
  lemma {:induction false} EndsNow(es: seq<Element>, t: TripSpan, inserted: seq<Element>, u: TripSpan)
    requires 0 <= t.origin < t.destination < |es| && 0 <= u.origin < u.destination < |es|
    requires u == t || u.destination <= t.origin || t.destination <= u.origin
    ensures var r, v := Spliced(es, t, inserted), Now(u, t, inserted);
            && 0 <= v.origin < v.destination < |r|
            && r[v.origin] == es[u.origin] && r[v.destination] == es[u.destination]
  {
    hide Spliced;
    NowWithin(es, t, inserted, u);
    SplicedIndex(es, t, inserted, Now(u, t, inserted).origin);
    SplicedIndex(es, t, inserted, Now(u, t, inserted).destination);
  }

  lemma {:induction false} OwnElements(es: seq<Element>, t: TripSpan, inserted: seq<Element>)
    requires 0 <= t.origin < t.destination < |es|
    ensures var r := Spliced(es, t, inserted);
            t.origin + 1 + |inserted| < |r| && r[t.origin + 1..t.origin + 1 + |inserted|] == inserted
  {
    var tail := inserted + es[t.destination..];
    assert Spliced(es, t, inserted) == es[..t.origin + 1] + tail;
    Slices(es[..t.origin + 1], tail, 0, |inserted|);
    assert tail[0..|inserted|] == inserted;
  }

  lemma {:induction false} EarlierElements(es: seq<Element>, t: TripSpan, inserted: seq<Element>, u: TripSpan)
    requires 0 <= t.origin < t.destination < |es| && 0 <= u.origin < u.destination <= t.origin
    ensures var r := Spliced(es, t, inserted);
            t.origin < |r| && r[u.origin + 1..u.destination] == es[u.origin + 1..u.destination]
  {
    var head := es[..t.origin + 1];
    assert Spliced(es, t, inserted)[..t.origin + 1] == head;
    assert head[u.origin + 1..u.destination] == es[u.origin + 1..u.destination];
    assert Spliced(es, t, inserted)[u.origin + 1..u.destination] == Spliced(es, t, inserted)[..t.origin + 1][u.origin + 1..u.destination];
  }

  lemma {:induction false} LaterElements(es: seq<Element>, t: TripSpan, inserted: seq<Element>, u: TripSpan)
    requires 0 <= t.origin < t.destination < |es| && t.destination <= u.origin < u.destination < |es|
    ensures var r, d := Spliced(es, t, inserted), Shift(t, inserted);
            && 0 <= u.origin + d && u.destination + d < |r|
            && r[u.origin + d + 1..u.destination + d] == es[u.origin + 1..u.destination]
  {
    var head, tail := es[..t.origin + 1] + inserted, es[t.destination..];
    var i, j := u.origin + 1 - t.destination, u.destination - t.destination;
    Slices(head, tail, i, j);
    assert tail[i..j] == es[u.origin + 1..u.destination];
  }

  lemma {:induction false} Slices(a: seq<Element>, b: seq<Element>, i: nat, j: nat)
    requires i <= j <= |b|
    ensures (a + b)[|a| + i..|a| + j] == b[i..j]
  {
  }

  /** An empty replacement is different: then the two main activities have nothing between them. */
  lemma {:induction false} EmptyReplacementLosesTrip(es: seq<Element>, i: nat)
    requires i < |Trips(es)|
    ensures var t := Trips(es)[i];
            IsTrip(es, t) && forall u :: IsTrip(Spliced(es, t, []), u) ==> u.origin != t.origin
  {
    TripsAreTrips(es);
    var t := Trips(es)[i];
    assert t in Trips(es);
    var r := Spliced(es, t, []);
    SplicedAt(es, t, []);
    assert r[t.origin + 1] == es[t.destination];
  }

  // ------------------------------------------------------------------ searching from an activity

  function FindFrom(es: seq<Element>, start: nat): (r: Option<TripSpan>)
    requires start <= |es|
  {
    var ts := Trips(es[start..]);
    if ts == [] then None else Some(Moved(ts[0], start))
  }

  lemma {:induction false} SuffixTrips(es: seq<Element>, start: nat, t: TripSpan)
    requires start <= |es|
    ensures IsTrip(es[start..], t) <==> IsTrip(es, Moved(t, start)) && t.origin >= 0
  {
    var s := es[start..];
    assert forall k :: 0 <= k < |s| ==> s[k] == es[k + start];
    if IsTrip(s, t) {
      assert forall k :: t.origin + start < k < t.destination + start ==> es[k] == s[k - start];
    }
    if IsTrip(es, Moved(t, start)) && t.origin >= 0 {
      assert forall k :: t.origin < k < t.destination ==> s[k] == es[k + start];
    }
  }

  /** The search finds the first trip that begins at or after the given element, if there is one. */
  lemma {:induction false} FindsFirstFrom(es: seq<Element>, start: nat)
    requires start <= |es|
    ensures FindFrom(es, start).None? <==> forall t :: IsTrip(es, t) ==> t.origin < start
    ensures FindFrom(es, start).Some? ==>
              var t := FindFrom(es, start).value;
              IsTrip(es, t) && t.origin >= start && forall u :: IsTrip(es, u) && u.origin >= start ==> t.origin <= u.origin
  {
    var s := es[start..];
    var ts := Trips(s);
    TripsAreTrips(s);
    hide Trips;
    forall u | IsTrip(es, u) && u.origin >= start
      ensures ts != [] && Moved(ts[0], start).origin <= u.origin
    {
      var w := TripSpan(u.origin - start, u.destination - start);
      SuffixTrips(es, start, w);
      assert Moved(w, start) == u;
      assert w in ts;
      var k :| 0 <= k < |ts| && ts[k] == w;
    }
    if ts != [] {
      assert ts[0] in ts;
      SuffixTrips(es, start, ts[0]);
    }
  }

  /** Searching from the origin of a trip finds that trip. */
  lemma {:induction false} FindsItself(es: seq<Element>, i: nat)
    requires i < |Trips(es)|
    ensures var t := Trips(es)[i];
            0 <= t.origin <= |es| && FindFrom(es, t.origin) == Some(t)
  {
    TripsAreTrips(es);
    var t := Trips(es)[i];
    assert t in Trips(es);
    FindsFirstFrom(es, t.origin);
    var u := FindFrom(es, t.origin).value;
    Apart(es, t, u);
  }

  // ------------------------------------------------------------------ parity

  /** Activities at even indices and legs at odd ones. */
  ghost predicate Alternating(es: seq<Element>)
  {
    forall i :: 0 <= i < |es| ==> (es[i].Act? <==> i % 2 == 0)
  }

  /** A replacement that starts and ends with a leg and alternates in between. */
  ghost predicate LegToLeg(es: seq<Element>)
  {
    |es| % 2 == 1 && forall i :: 0 <= i < |es| ==> (es[i].Leg? <==> i % 2 == 0)
  }

  /** Replacements of that form, and only those, keep a plan alternating. */
  lemma {:induction false} StaysAlternating(es: seq<Element>, t: TripSpan, inserted: seq<Element>)
    requires Alternating(es) && IsTrip(es, t)
    ensures Alternating(Spliced(es, t, inserted)) <==> LegToLeg(inserted)
  {
    assert es[t.origin].Act? && es[t.destination].Act?;
    assert t.origin % 2 == 0 && t.destination % 2 == 0;
    if Alternating(Spliced(es, t, inserted)) {
      OnlyLegToLeg(es, t, inserted);
    }
    if LegToLeg(inserted) {
      LegToLegFits(es, t, inserted);
    }
  }

  lemma {:induction false} OnlyLegToLeg(es: seq<Element>, t: TripSpan, inserted: seq<Element>)
    requires 0 <= t.origin < t.destination < |es| && es[t.destination].Act? && t.origin % 2 == 0
    requires Alternating(Spliced(es, t, inserted))
    ensures LegToLeg(inserted)
  {
    SplicedAt(es, t, inserted);
    var r, d := Spliced(es, t, inserted), Shift(t, inserted);
    hide Spliced;
    var n := t.destination + d;
    assert r[n] == es[t.destination];
    assert n == t.origin + |inserted| + 1 && n % 2 == 0;
    forall i | 0 <= i < |inserted|
      ensures inserted[i].Leg? <==> i % 2 == 0
    {
      assert r[t.origin + 1 + i] == inserted[i];
    }
  }

  lemma {:induction false} LegToLegFits(es: seq<Element>, t: TripSpan, inserted: seq<Element>)
    requires 0 <= t.origin < t.destination < |es| && t.origin % 2 == 0 && t.destination % 2 == 0
    requires Alternating(es) && LegToLeg(inserted)
    ensures Alternating(Spliced(es, t, inserted))
  {
    var r, d := Spliced(es, t, inserted), Shift(t, inserted);
    hide Spliced;
    assert d % 2 == 0;
    forall k | 0 <= k < |r|
      ensures r[k].Act? <==> k % 2 == 0
    {
      SplicedIndex(es, t, inserted, k);
      SameParity(k, d);
      SameParity(k - 1, t.origin);
    }
  }

  lemma {:induction false} SameParity(k: int, d: int)
    requires d % 2 == 0
    ensures (k - d) % 2 == k % 2 && (k + 1) % 2 == 1 - k % 2
  {
  }

  /** The part of an agent that walks along its plan. */
  class PlanLogic {
    var elements: seq<Element>
    var current: nat

    /** What the agent believes it is doing, judging by parity, is what the plan says. */
    ghost predicate Valid()
      reads this
    {
      Alternating(elements) && current < |elements|
    }

    constructor (elements: seq<Element>)
      requires Alternating(elements) && elements != []
      ensures Valid() && current == 0 && this.elements == elements
    {
      this.elements := elements;
      current := 0;
    }

    method AtActivity() returns (r: bool)
      requires Valid()
      ensures r == elements[current].Act?
    {
      r := current % 2 == 0;
    }

    /** Panics, in the source, if there is no further element. */
    method AdvancePlan()
      requires Valid() && current + 1 < |elements|
      modifies this`current
      ensures Valid() && current == old(current) + 1
      ensures elements[current].Act? <==> elements[old(current)].Leg?
    {
      current := current + 1;
    }

    /**
     * A routing response replaces the first trip from here on; an empty one changes nothing. The
     * plan keeps alternating if and only if the response leads from leg to leg.
     */
    method ReplaceNextTrip(response: seq<Element>)
      requires Valid() && (response != [] ==> exists t :: IsTrip(elements, t) && t.origin >= current)
      modifies this`elements
      ensures current == old(current) && (Valid() <==> response == [] || LegToLeg(response))
      ensures response == [] ==> elements == old(elements)
      ensures response != [] ==>
                var span := FindFrom(old(elements), current);
                span.Some? && IsTrip(old(elements), span.value) && elements == Spliced(old(elements), span.value, response)
      ensures current < |elements| && elements[..current + 1] == old(elements[..current + 1])
    {
      if response == [] {
        return;
      }
      FindsFirstFrom(elements, current);
      var span := FindFrom(elements, current).value;
      StaysAlternating(elements, span, response);
      hide FindFrom;
      elements := Spliced(elements, span, response);
    }
  }
}
