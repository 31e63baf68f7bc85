/** A priority queue by time that keeps the order of insertion among entries with the same time. */
module TimeQueues {
  import opened Basics

  datatype Entry<T> = Entry(endTime: nat, order: nat, value: T)

  /** Entry a is taken from the queue before entry b, or they are tied. */
  predicate Before<T>(a: Entry<T>, b: Entry<T>)
  {
    a.endTime < b.endTime || (a.endTime == b.endTime && a.order <= b.order)
  }

  function Values<T>(es: seq<Entry<T>>): (r: seq<T>)
    ensures |r| == |es| && forall i :: 0 <= i < |es| ==> r[i] == es[i].value
  {
    seq(|es|, i requires 0 <= i < |es| => es[i].value)
  }

  ghost predicate Sorted<T>(es: seq<Entry<T>>)
  {
    forall i, j :: 0 <= i < j < |es| ==> Before(es[i], es[j])
  }

  /** The entries were numbered in the order of their insertion and the counter has not wrapped. */
  ghost predicate Numbered<T>(es: seq<Entry<T>>, counter: nat)
  {
    && (forall i :: 0 <= i < |es| ==> es[i].order < counter)
    && (forall i, j :: 0 <= i < j < |es| ==> es[i].order != es[j].order)
  }

  lemma {:induction false} StillNumbered<T>(es: seq<Entry<T>>, k: nat, counter: nat)
    requires k < |es| && Numbered(es, counter)
    ensures Numbered(RemoveAt(es, k), counter)
  {
    var r := RemoveAt(es, k);
    assert forall i :: 0 <= i < |r| ==> r[i] == es[if i < k then i else i + 1];
  }

  /** Everything in a is taken from the queue before everything in b. */
  ghost predicate AllBefore<T>(a: seq<Entry<T>>, b: seq<Entry<T>>)
  {
    forall i, j :: 0 <= i < |a| && 0 <= j < |b| ==> Before(a[i], b[j])
  }

  /** Of the entries all, popped were taken in order, and rest comes after all of them. */
  ghost predicate Taken<T>(all: seq<Entry<T>>, rest: seq<Entry<T>>, popped: seq<Entry<T>>, now: nat)
  {
    && multiset(all) == multiset(rest) + multiset(popped)
    && Sorted(popped) && AllBefore(popped, rest)
    && forall i :: 0 <= i < |popped| ==> popped[i].endTime <= now
  }

  lemma {:induction false} TakeLeast<T>(all: seq<Entry<T>>, q: seq<Entry<T>>, popped: seq<Entry<T>>, k: nat, now: nat, counter: nat)
    requires Taken(all, q, popped, now) && k < |q| && q[k].endTime <= now
    requires forall i :: 0 <= i < |q| ==> Before(q[k], q[i])
    ensures Taken(all, RemoveAt(q, k), popped + [q[k]], now) && |RemoveAt(q, k)| < |q|
    ensures Numbered(q, counter) ==> Numbered(RemoveAt(q, k), counter)
  {
    hide Before, Numbered;
    RemovedOne(q, k);
    if Numbered(q, counter) {
      StillNumbered(q, k, counter);
    }
    LeastNext(popped, q, k);
  }

  lemma {:induction false} LeastNext<T>(popped: seq<Entry<T>>, q: seq<Entry<T>>, k: nat)
    requires Sorted(popped) && AllBefore(popped, q) && k < |q| && forall i :: 0 <= i < |q| ==> Before(q[k], q[i])
    ensures Sorted(popped + [q[k]]) && AllBefore(popped + [q[k]], RemoveAt(q, k))
  {
    hide Before;
    var r, p := RemoveAt(q, k), popped + [q[k]];
    assert forall i :: 0 <= i < |r| ==> r[i] == q[if i < k then i else i + 1];
  }

  lemma {:induction false} NothingTaken<T>(q: seq<Entry<T>>)
    ensures forall now: nat :: Taken(q, q, [], now)
  {
  }

  class TimeQueue<T> {
    /** The content of the heap; only its least entry is ever looked at. */
    var q: seq<Entry<T>>
    var counter: nat

    constructor ()
      ensures q == [] && counter == 0
    {
      q, counter := [], 0;
    }

    method Add(value: T, endTime: nat)
      modifies this
      ensures q == old(q) + [Entry(endTime, old(counter), value)]
      ensures counter == if old(counter) < U64_MAX then old(counter) + 1 else 0
      ensures old(Numbered(q, counter)) && old(counter) < U64_MAX ==> Numbered(q, counter)
    {
      q := q + [Entry(endTime, counter, value)];
      counter := if counter < U64_MAX then counter + 1 else 0;
    }

    /** The entry that the heap yields first. */
    method Peek() returns (k: nat)
      requires q != []
      ensures k < |q| && forall i :: 0 <= i < |q| ==> Before(q[k], q[i])
    {
      k := 0;
      for i := 1 to |q|
        invariant k < |q| && forall j :: 0 <= j < i ==> Before(q[k], q[j])
      {
        if !Before(q[k], q[i]) {
          k := i;
        }
      }
    }

    /**
     * Takes out every entry whose time has come, and only those, by time and, as long as the
     * counter has not wrapped, by insertion.
     */
    method Pop(now: nat) returns (result: seq<T>, ghost popped: seq<Entry<T>>)
      modifies this`q
      ensures result == Values(popped)
      ensures multiset(old(q)) == multiset(q) + multiset(popped)
      ensures forall e :: e in popped ==> e.endTime <= now
      ensures forall e :: e in q ==> e.endTime > now
      ensures Sorted(popped)
      ensures old(Numbered(q, counter)) ==> Numbered(q, counter)
    {
      hide Sorted, AllBefore, Numbered, RemoveAt;
      result, popped := [], [];
      NothingTaken(q);
      while q != []
        invariant result == Values(popped)
        invariant Taken(old(q), q, popped, now)
        invariant old(Numbered(q, counter)) ==> Numbered(q, counter)
        decreases |q|
      {
        var k := Peek();
        if q[k].endTime <= now {
          TakeLeast(old(q), q, popped, k, now, counter);
          result := result + [q[k].value];
          popped := popped + [q[k]];
          q := RemoveAt(q, k);
        } else {
          break;
        }
      }
    }

    method Drain() returns (result: seq<T>)
      modifies this`q
      ensures result == Values(old(q)) && q == []
    {
      result := Values(q);
      q := [];
    }
  }

  /** Entries of the same time leave the queue in the order in which they came into it. */
  lemma {:induction false} StableOrder<T>(all: seq<Entry<T>>, counter: nat, popped: seq<Entry<T>>, rest: seq<Entry<T>>, i: nat, j: nat)
    requires Numbered(all, counter) && multiset(all) == multiset(rest) + multiset(popped) && Sorted(popped)
    requires i < j < |popped| && popped[i].endTime == popped[j].endTime
    ensures popped[i].order < popped[j].order
  {
    if popped[i].order == popped[j].order {
      TwiceOrSame(all, popped, rest, i, j);
    }
  }

  lemma {:induction false} TwiceOrSame<T>(all: seq<Entry<T>>, popped: seq<Entry<T>>, rest: seq<Entry<T>>, i: nat, j: nat)
    requires multiset(all) == multiset(rest) + multiset(popped) && i < j < |popped|
    ensures exists a, b :: 0 <= a < |all| && 0 <= b < |all| && a != b && all[a] == popped[i] && all[b] == popped[j]
  {
    var x, y := popped[i], popped[j];
    assert multiset(popped)[x] >= 1 && multiset(popped)[y] >= 1;
    if x != y {
      assert x in multiset(all) && y in multiset(all);
      var a :| 0 <= a < |all| && all[a] == x;
      var b :| 0 <= b < |all| && all[b] == y;
    } else {
      RemovedOne(popped, j);
      assert RemoveAt(popped, j)[i] == x;
      assert multiset(popped)[x] >= 2;
      TwoPlaces(all, x);
    }
  }

  lemma {:induction false} TwoPlaces<T>(all: seq<Entry<T>>, x: Entry<T>)
    requires multiset(all)[x] >= 2
    ensures exists a, b :: 0 <= a < |all| && 0 <= b < |all| && a != b && all[a] == x && all[b] == x
  {
    assert x in multiset(all);
    var a :| 0 <= a < |all| && all[a] == x;
    RemovedOne(all, a);
    var r := RemoveAt(all, a);
    assert x in multiset(r);
    var b :| 0 <= b < |r| && r[b] == x;
    var c := if b < a then b else b + 1;
    assert all[c] == x && c != a;
  }

  lemma {:induction false} ValuesConcat<T>(a: seq<Entry<T>>, b: seq<Entry<T>>)
    ensures Values(a + b) == Values(a) + Values(b)
  {
  }

  /** Splitting a queue splits its values. */
  lemma {:induction false} ValuesSplit<T>(all: seq<Entry<T>>, rest: seq<Entry<T>>, popped: seq<Entry<T>>)
    requires multiset(all) == multiset(rest) + multiset(popped)
    ensures multiset(Values(all)) == multiset(Values(rest)) + multiset(Values(popped))
  {
    SameEntriesSameValues(all, rest + popped);
    ValuesConcat(rest, popped);
  }

  lemma {:induction false} SameEntriesSameValues<T>(a: seq<Entry<T>>, b: seq<Entry<T>>)
    requires multiset(a) == multiset(b)
    ensures multiset(Values(a)) == multiset(Values(b))
  {
    if a == [] {
      assert |multiset(b)| == |b|;
    } else {
      assert a[0] in multiset(b);
      var k :| 0 <= k < |b| && b[k] == a[0];
      assert a == [a[0]] + a[1..];
      RemovedOne(b, k);
      CancelOne(multiset(a[1..]), multiset(RemoveAt(b, k)), a[0]);
      SameEntriesSameValues(a[1..], RemoveAt(b, k));
      ValuesRemoved(a, 0);
      ValuesRemoved(b, k);
      assert RemoveAt(a, 0) == a[1..];
    }
  }

  lemma {:induction false} ValuesRemoved<T>(es: seq<Entry<T>>, k: nat)
    requires k < |es|
    ensures multiset(Values(es)) == multiset(Values(RemoveAt(es, k))) + multiset{es[k].value}
  {
    var vs := Values(es);
    assert vs == vs[..k] + ([vs[k]] + vs[k + 1..]);
    assert Values(RemoveAt(es, k)) == vs[..k] + vs[k + 1..];
  }
}
