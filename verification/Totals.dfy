/** Totals of ids over the places where vehicles or agents can be. */
module Totals {
  import opened Basics

  function Ids(vs: seq<Vehicle>): (r: multiset<nat>)
  {
    if vs == [] then multiset{} else multiset{vs[0].id} + Ids(vs[1..])
  }

  lemma {:induction false} IdsConcat(a: seq<Vehicle>, b: seq<Vehicle>)
    ensures Ids(a + b) == Ids(a) + Ids(b)
  {
    if a == [] {
      assert a + b == b;
    } else {
      assert (a + b)[1..] == a[1..] + b;
      IdsConcat(a[1..], b);
    }
  }

  lemma {:induction false} IdsSize(vs: seq<Vehicle>)
    ensures |Ids(vs)| == |vs|
  {
    if vs != [] {
      IdsSize(vs[1..]);
    }
  }

  lemma {:induction false} IdsCons(v: Vehicle, vs: seq<Vehicle>)
    ensures Ids([v] + vs) == multiset{v.id} + Ids(vs)
  {
    assert ([v] + vs)[1..] == vs;
  }

  lemma {:induction false} IdsSplit(vs: seq<Vehicle>)
    ensures Ids(vs) == Ids(Arriving(vs)) + Ids(Continuing(vs))
  {
    if vs != [] {
      var v, rest := vs[0], vs[1..];
      IdsSplit(rest);
      IdsCons(v, Arriving(rest));
      IdsCons(v, Continuing(rest));
      if v.WantsToArrive() {
        assert Arriving(vs) == [v] + Arriving(rest);
        assert Continuing(vs) == Continuing(rest);
      } else {
        assert Arriving(vs) == Arriving(rest);
        assert Continuing(vs) == [v] + Continuing(rest);
      }
    }
  }

  /** The union of all entries of a map of multisets. */
  ghost function Total(m: map<nat, multiset<nat>>): (r: multiset<nat>)
  {
    if m == map[] then multiset{}
    else
      var k :| k in m;
      m[k] + Total(m - {k})
  }

  lemma {:induction false} TotalRemove(m: map<nat, multiset<nat>>, k: nat)
    requires k in m
    ensures Total(m) == m[k] + Total(m - {k})
  {
    var j :| j in m && Total(m) == m[j] + Total(m - {j});
    if j != k {
      TotalRemove(m - {j}, k);
      TotalRemove(m - {k}, j);
      assert m - {j} - {k} == m - {k} - {j};
    }
  }

  /** Changing one entry changes the total by the difference. */
  lemma {:induction false} TotalUpdate(m: map<nat, multiset<nat>>, k: nat, v: multiset<nat>)
    requires k in m
    ensures Total(m[k := v]) + m[k] == Total(m) + v
  {
    TotalRemove(m, k);
    TotalRemove(m[k := v], k);
    assert m[k := v] - {k} == m - {k};
  }

  lemma {:induction false} TotalOfEmpties(m: map<nat, multiset<nat>>)
    requires forall k :: k in m ==> m[k] == multiset{}
    ensures Total(m) == multiset{}
  {
    if m != map[] {
      var k :| k in m;
      TotalRemove(m, k);
      TotalOfEmpties(m - {k});
    }
  }
}
