/** Names shared by every module: ids, ticks with their saturating arithmetic, and vehicles. */
module Basics {

  datatype Option<+T> = None | Some(value: T)

  type LinkId = nat
  type NodeId = nat
  type Part = nat

  /** Ticks and nanoseconds are u64 values in the simulation; sums of ticks saturate. */
  type Tick = nat

  const U64_MAX: nat := 0xFFFF_FFFF_FFFF_FFFF
  const NANOS: nat := 1_000_000_000

  function SatAdd(a: Tick, b: Tick): (r: Tick)
  {
    if a + b <= U64_MAX then a + b else U64_MAX
  }

  function Next(t: Tick): (r: Tick)
  {
    SatAdd(t, 1)
  }

  /**
   * A vehicle on the network together with the part of its driver that the network consults:
   * the links of the current leg's network route and the pointer into it.
   */
  datatype Vehicle = Vehicle(id: nat, pce: real, maxV: real, route: seq<LinkId>, pos: nat) {
    function Curr(): (r: Option<LinkId>)
    {
      if pos < |route| then Some(route[pos]) else None
    }

    function PeekNext(): (r: Option<LinkId>)
    {
      if pos + 1 < |route| then Some(route[pos + 1]) else None
    }

    /** The route pointer stands on the last link of the route. */
    predicate WantsToArrive()
    {
      PeekNext().None?
    }

    /** The driver is told that it left a link: the route pointer advances. */
    function LeftLink(): (v: Vehicle)
    {
      this.(pos := pos + 1)
    }
  }

  function Pce(vs: seq<Vehicle>): (r: real)
  {
    if vs == [] then 0.0 else vs[0].pce + Pce(vs[1..])
  }

  lemma {:induction false} PceConcat(a: seq<Vehicle>, b: seq<Vehicle>)
    ensures Pce(a + b) == Pce(a) + Pce(b)
  {
    if a == [] {
      assert a + b == b;
    } else {
      assert (a + b)[1..] == a[1..] + b;
      PceConcat(a[1..], b);
    }
  }

  /** Every vehicle counts as a positive number of passenger car equivalents, at most p. */
  predicate PceWithin(vs: seq<Vehicle>, p: real)
  {
    forall v :: v in vs ==> 0.0 < v.pce <= p
  }

  lemma {:induction false} PcePositive(vs: seq<Vehicle>, p: real)
    requires PceWithin(vs, p)
    ensures Pce(vs) >= 0.0
    ensures vs != [] ==> Pce(vs) > 0.0
  {
    if vs != [] {
      assert forall v :: v in vs[1..] ==> v in vs;
      assert vs[0] in vs;
      PcePositive(vs[1..], p);
    }
  }

  /** The vehicles of vs that end their leg on the link they are on, in order. */
  function Arriving(vs: seq<Vehicle>): (r: seq<Vehicle>)
  {
    if vs == [] then []
    else (if vs[0].WantsToArrive() then [vs[0]] else []) + Arriving(vs[1..])
  }

  /** The vehicles of vs that want to travel on, in order. */
  function Continuing(vs: seq<Vehicle>): (r: seq<Vehicle>)
  {
    if vs == [] then []
    else (if vs[0].WantsToArrive() then [] else [vs[0]]) + Continuing(vs[1..])
  }

  lemma {:induction false} SplitByArrival(vs: seq<Vehicle>)
    ensures multiset(vs) == multiset(Arriving(vs)) + multiset(Continuing(vs))
    ensures forall v :: v in Continuing(vs) ==> v in vs && !v.WantsToArrive()
    ensures forall v :: v in Arriving(vs) ==> v in vs && v.WantsToArrive()
  {
    hide Arriving, Continuing, Vehicle.WantsToArrive;
    SplitKinds(vs);
    SplitCounts(vs);
  }

  lemma {:induction false} SplitCounts(vs: seq<Vehicle>)
    ensures multiset(vs) == multiset(Arriving(vs)) + multiset(Continuing(vs))
  {
    hide Arriving, Continuing, Vehicle.WantsToArrive;
    if vs == [] {
      NoneSplit();
    } else {
      var v, rest := vs[0], vs[1..];
      SplitCounts(rest);
      SplitFirst(vs);
      assert vs == [v] + rest;
      if v.WantsToArrive() {
        assert [] + Continuing(rest) == Continuing(rest);
        assert multiset([v] + Arriving(rest)) == multiset{v} + multiset(Arriving(rest));
      } else {
        assert [] + Arriving(rest) == Arriving(rest);
        assert multiset([v] + Continuing(rest)) == multiset{v} + multiset(Continuing(rest));
      }
    }
  }

  lemma {:induction false} NoneSplit()
    ensures Arriving([]) == [] && Continuing([]) == []
  {
  }

  lemma {:induction false} SplitKinds(vs: seq<Vehicle>)
    ensures forall v :: v in Continuing(vs) ==> v in vs && !v.WantsToArrive()
    ensures forall v :: v in Arriving(vs) ==> v in vs && v.WantsToArrive()
  {
    if vs != [] {
      SplitKinds(vs[1..]);
    }
  }

  lemma {:induction false} SplitFirst(vs: seq<Vehicle>)
    requires vs != []
    ensures Arriving(vs) == (if vs[0].WantsToArrive() then [vs[0]] else []) + Arriving(vs[1..])
    ensures Continuing(vs) == (if vs[0].WantsToArrive() then [] else [vs[0]]) + Continuing(vs[1..])
  {
    hide Vehicle.WantsToArrive;
  }

  /** The sequence without its element k. */
  function RemoveAt<T>(s: seq<T>, k: nat): (r: seq<T>)
    requires k < |s|
    ensures |r| == |s| - 1 && forall i :: 0 <= i < |r| ==> r[i] == s[if i < k then i else i + 1]
  {
    s[..k] + s[k + 1..]
  }

  lemma {:induction false} RemovedOne<T>(s: seq<T>, k: nat)
    requires k < |s|
    ensures multiset(s) == multiset(RemoveAt(s, k)) + multiset{s[k]}
    ensures forall e :: e in RemoveAt(s, k) ==> e in s
  {
    assert s == s[..k] + ([s[k]] + s[k + 1..]);
  }

  lemma {:induction false} CancelOne<T>(x: multiset<T>, y: multiset<T>, e: T)
    requires multiset{e} + x == y + multiset{e}
    ensures x == y
  {
    assert x == multiset{e} + x - multiset{e};
    assert y == y + multiset{e} - multiset{e};
  }
}
