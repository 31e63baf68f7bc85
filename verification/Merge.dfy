/** Reading the event files of all partitions as one stream, time step by time step. */
module Merge {
  import opened Basics

  /** What a file holds for one time. */
  datatype TimeStep = TimeStep(time: nat, events: seq<nat>)

  /** A reader of file number file: the step it has preloaded is the first of rest. */
  datatype Reader = Reader(file: nat, rest: seq<TimeStep>)

  /** A time step as it is handed on, with the file it is from. */
  datatype Processed = Processed(file: nat, step: TimeStep)

  ghost predicate Loaded(rs: seq<Reader>)
  {
    forall i :: 0 <= i < |rs| ==> rs[i].rest != []
  }

  ghost predicate ByTime(rs: seq<Reader>)
    requires Loaded(rs)
  {
    forall i, j :: 0 <= i < j < |rs| ==> rs[i].rest[0].time <= rs[j].rest[0].time
  }

  ghost predicate DistinctFiles(rs: seq<Reader>)
  {
    forall i, j :: 0 <= i < j < |rs| ==> rs[i].file != rs[j].file
  }

  /** The readers sorted by the time they have preloaded; equal times keep their order. */
  function Insert(r: Reader, rs: seq<Reader>): (s: seq<Reader>)
    requires r.rest != [] && Loaded(rs)
  {
    if rs == [] || r.rest[0].time <= rs[0].rest[0].time then [r] + rs
    else [rs[0]] + Insert(r, rs[1..])
  }

  function Sort(rs: seq<Reader>): (s: seq<Reader>)
    requires Loaded(rs)
    ensures multiset(s) == multiset(rs) && Loaded(s) && |s| == |rs|
  {
    if rs == [] then []
    else
      var t := Sort(rs[1..]);
      Inserted(rs[0], t);
      assert rs == [rs[0]] + rs[1..];
      Insert(rs[0], t)
  }

  lemma {:induction false} Inserted(r: Reader, rs: seq<Reader>)
    requires r.rest != [] && Loaded(rs)
    ensures multiset(Insert(r, rs)) == multiset{r} + multiset(rs)
    ensures Loaded(Insert(r, rs)) && |Insert(r, rs)| == |rs| + 1
  {
    if !(rs == [] || r.rest[0].time <= rs[0].rest[0].time) {
      Inserted(r, rs[1..]);
      assert rs == [rs[0]] + rs[1..];
    }
  }

  lemma {:induction false} InsertSorted(r: Reader, rs: seq<Reader>)
    requires r.rest != [] && Loaded(rs) && ByTime(rs)
    ensures Loaded(Insert(r, rs)) && ByTime(Insert(r, rs))
    ensures var s := Insert(r, rs);
            s != [] && (s[0] == r || (rs != [] && s[0] == rs[0] && rs[0].rest[0].time <= r.rest[0].time))
  {
    if !(rs == [] || r.rest[0].time <= rs[0].rest[0].time) {
      InsertSorted(r, rs[1..]);
      Inserted(r, rs[1..]);
      var t := Insert(r, rs[1..]);
      assert t[0].rest[0].time >= rs[0].rest[0].time;
    }
  }

  lemma {:induction false} SortSorts(rs: seq<Reader>)
    requires Loaded(rs)
    ensures ByTime(Sort(rs))
  {
    if rs != [] {
      SortSorts(rs[1..]);
      InsertSorted(rs[0], Sort(rs[1..]));
    }
  }

  // ------------------------------------------------------------------ who has what

  /** What the reader of file f, if there is one, still has to deliver. */
  function RestOf(rs: seq<Reader>, f: nat): (r: seq<TimeStep>)
  {
    if rs == [] then [] else if rs[0].file == f then rs[0].rest else RestOf(rs[1..], f)
  }

  lemma {:induction false} RestIs(rs: seq<Reader>, i: nat)
    requires DistinctFiles(rs) && i < |rs|
    ensures RestOf(rs, rs[i].file) == rs[i].rest
  {
    if i > 0 {
      assert rs[0].file != rs[i].file;
      assert forall a :: 0 <= a < |rs[1..]| ==> rs[1..][a] == rs[a + 1];
      RestIs(rs[1..], i - 1);
    }
  }

  lemma {:induction false} NoRest(rs: seq<Reader>, f: nat)
    requires forall i :: 0 <= i < |rs| ==> rs[i].file != f
    ensures RestOf(rs, f) == []
  {
    if rs != [] {
      NoRest(rs[1..], f);
    }
  }

  /** The order of the readers does not matter for what they have. */
  lemma {:induction false} SameRest(a: seq<Reader>, b: seq<Reader>, f: nat)
    requires multiset(a) == multiset(b) && DistinctFiles(a) && DistinctFiles(b)
    ensures RestOf(a, f) == RestOf(b, f)
  {
    if i :| 0 <= i < |a| && a[i].file == f {
      RestIs(a, i);
      assert a[i] in multiset(b);
      var j :| 0 <= j < |b| && b[j] == a[i];
      RestIs(b, j);
    } else {
      NoRest(a, f);
      forall j | 0 <= j < |b|
        ensures b[j].file != f
      {
        assert b[j] in multiset(a);
      }
      NoRest(b, f);
    }
  }

  lemma {:induction false} StillDistinct(a: seq<Reader>, b: seq<Reader>)
    requires multiset(a) == multiset(b) && DistinctFiles(a)
    ensures DistinctFiles(b)
  {
    if i, j :| 0 <= i < j < |b| && b[i].file == b[j].file {
      Twice(a, b, i, j);
    }
  }

  lemma {:induction false} Twice(a: seq<Reader>, b: seq<Reader>, i: nat, j: nat)
    requires multiset(a) == multiset(b) && i < j < |b| && b[i].file == b[j].file
    ensures !DistinctFiles(a)
  {
    var x, y := b[i], b[j];
    assert x in multiset(a) && y in multiset(a);
    var p :| 0 <= p < |a| && a[p] == x;
    if x != y {
      var q :| 0 <= q < |a| && a[q] == y;
      assert p != q && a[p].file == a[q].file;
    } else {
      RemovedOne(b, i);
      assert RemoveAt(b, i)[j - 1] == x;
      assert multiset(b)[x] >= 2;
      RemovedOne(a, p);
      assert x in multiset(RemoveAt(a, p));
      var q :| 0 <= q < |RemoveAt(a, p)| && RemoveAt(a, p)[q] == x;
      var q1 := if q < p then q else q + 1;
      assert a[q1] == x && q1 != p;
    }
  }

  // ------------------------------------------------------------------ the loop

  /** The steps of file f among those processed, in order. */
  function Of(ps: seq<Processed>, f: nat): (r: seq<TimeStep>)
  {
    if ps == [] then []
    else Of(ps[..|ps| - 1], f) + (if ps[|ps| - 1].file == f then [ps[|ps| - 1].step] else [])
  }

  lemma {:induction false} OfMore(ps: seq<Processed>, p: Processed, f: nat)
    ensures Of(ps + [p], f) == Of(ps, f) + (if p.file == f then [p.step] else [])
  {
    assert (ps + [p])[..|ps + [p]| - 1] == ps;
  }

  /** Files whose steps are in order of time. */
  ghost predicate Chronological(ts: seq<TimeStep>)
  {
    forall i, j :: 0 <= i < j < |ts| ==> ts[i].time <= ts[j].time
  }

  ghost predicate TimeSorted(ps: seq<Processed>)
  {
    forall i, j :: 0 <= i < j < |ps| ==> ps[i].step.time <= ps[j].step.time
  }

  function Remaining(rs: seq<Reader>): (n: nat)
  {
    if rs == [] then 0 else |rs[0].rest| + Remaining(rs[1..])
  }

  /** All files in order of time, and everything that is left is not before anything processed. */
  ghost predicate Ahead(ps: seq<Processed>, rs: seq<Reader>)
  {
    && TimeSorted(ps)
    && (forall i :: 0 <= i < |rs| ==> Chronological(rs[i].rest))
    && (forall i, k, j :: 0 <= i < |ps| && 0 <= k < |rs| && 0 <= j < |rs[k].rest| ==> ps[i].step.time <= rs[k].rest[j].time)
  }

  /** The readers after the first one has been advanced or, at its end, removed. */
  function Advanced(rs: seq<Reader>): (r: seq<Reader>)
    requires rs != [] && rs[0].rest != []
  {
    if |rs[0].rest| == 1 then rs[1..] else [Reader(rs[0].file, rs[0].rest[1..])] + rs[1..]
  }

  // ------------------------------------------------------------------ whose turn it is

  /** The number of steps up to the last one of file f; 0 if there is none. */
  function LastTurn(ps: seq<Processed>, f: nat): (n: nat)
  {
    if ps == [] then 0 else if ps[|ps| - 1].file == f then |ps| else LastTurn(ps[..|ps| - 1], f)
  }

  /** Of two files with the same time, that one goes first whose last turn was later, or else the one with the smaller number. */
  ghost predicate Preferred(ps: seq<Processed>, f: nat, g: nat)
  {
    LastTurn(ps, f) > LastTurn(ps, g) || (LastTurn(ps, f) == LastTurn(ps, g) == 0 && f < g)
  }

  /** File f has the next step of all that are left after ps. */
  ghost predicate HasTurn(files: seq<seq<TimeStep>>, ps: seq<Processed>, f: nat)
  {
    && f < |files| && |Of(ps, f)| < |files[f]|
    && forall g :: 0 <= g < |files| && g != f && |Of(ps, g)| < |files[g]| ==>
         var t, u := files[f][|Of(ps, f)|].time, files[g][|Of(ps, g)|].time;
         t < u || (t == u && Preferred(ps, f, g))
  }

  /** After ps comes p: it is the next step of the file whose turn it is. */
  ghost predicate Follows(files: seq<seq<TimeStep>>, ps: seq<Processed>, p: Processed)
  {
    HasTurn(files, ps, p.file) && p.step == files[p.file][|Of(ps, p.file)|]
  }

  /** Readers with the same time are in the order of preference. */
  ghost predicate InTurn(ps: seq<Processed>, rs: seq<Reader>)
    requires Loaded(rs)
  {
    forall i, j :: 0 <= i < j < |rs| && rs[i].rest[0].time == rs[j].rest[0].time ==> Preferred(ps, rs[i].file, rs[j].file)
  }

  lemma {:induction false} InsertInTurn(ps: seq<Processed>, r: Reader, rs: seq<Reader>)
    requires r.rest != [] && Loaded(rs) && InTurn(ps, rs)
    requires forall x :: x in rs && x.rest != [] && x.rest[0].time == r.rest[0].time ==> Preferred(ps, r.file, x.file)
    ensures Loaded(Insert(r, rs)) && InTurn(ps, Insert(r, rs))
  {
    hide Preferred;
    Inserted(r, rs);
    if !(rs == [] || r.rest[0].time <= rs[0].rest[0].time) {
      var rest := rs[1..];
      InsertInTurn(ps, r, rest);
      Inserted(r, rest);
      var t := Insert(r, rest);
      forall j | 0 <= j < |t| && rs[0].rest[0].time == t[j].rest[0].time
        ensures Preferred(ps, rs[0].file, t[j].file)
      {
        assert t[j] in multiset(t) && t[j] != r;
        assert t[j] in rest;
        var k :| 0 <= k < |rest| && rest[k] == t[j];
        assert rs[k + 1] == t[j];
      }
    }
  }

  /** Sorting keeps the order of readers with the same time. */
  lemma {:induction false} SortInTurn(ps: seq<Processed>, rs: seq<Reader>)
    requires Loaded(rs) && InTurn(ps, rs)
    ensures InTurn(ps, Sort(rs))
  {
    hide InTurn, Preferred, Insert;
    if rs != [] {
      RestInTurn(ps, rs);
      SortInTurn(ps, rs[1..]);
      forall x | x in Sort(rs[1..]) && x.rest != [] && x.rest[0].time == rs[0].rest[0].time
        ensures Preferred(ps, rs[0].file, x.file)
      {
        assert x in multiset(Sort(rs[1..])) && x in rs[1..];
      }
      InsertInTurn(ps, rs[0], Sort(rs[1..]));
    } else {
      assert Sort(rs) == rs;
    }
  }

  lemma {:induction false} RestInTurn(ps: seq<Processed>, rs: seq<Reader>)
    requires Loaded(rs) && InTurn(ps, rs) && rs != []
    ensures Loaded(rs[1..]) && InTurn(ps, rs[1..])
    ensures forall x :: x in rs[1..] && x.rest[0].time == rs[0].rest[0].time ==> Preferred(ps, rs[0].file, x.file)
  {
    hide Preferred;
    assert forall i :: 0 <= i < |rs[1..]| ==> rs[1..][i] == rs[i + 1];
  }

  lemma {:induction false} LastTurnMore(ps: seq<Processed>, p: Processed, f: nat)
    ensures LastTurn(ps + [p], f) == if p.file == f then |ps| + 1 else LastTurn(ps, f)
    ensures LastTurn(ps, f) <= |ps|
  {
    assert (ps + [p])[..|ps|] == ps;
    if ps != [] {
      LastTurnMore(ps[..|ps| - 1], p, f);
    }
  }

  /** The reader that was advanced stays in front of those with the same time. */
  lemma {:induction false} AdvancedInTurn(ps: seq<Processed>, rs: seq<Reader>, p: Processed)
    requires Loaded(rs) && DistinctFiles(rs) && InTurn(ps, rs) && rs != [] && p.file == rs[0].file
    ensures Loaded(Advanced(rs)) && InTurn(ps + [p], Advanced(rs))
  {
    hide Advanced, DistinctFiles, Preferred;
    AdvancedFiles(rs);
    var r := Advanced(rs);
    forall i, j | 0 <= i < j < |r| && r[i].rest[0].time == r[j].rest[0].time
      ensures Preferred(ps + [p], r[i].file, r[j].file)
    {
      AdvancedPair(ps, rs, p, i, j);
    }
  }

  lemma {:induction false} AdvancedPair(ps: seq<Processed>, rs: seq<Reader>, p: Processed, i: nat, j: nat)
    requires Loaded(rs) && DistinctFiles(rs) && InTurn(ps, rs) && rs != [] && p.file == rs[0].file
    requires Loaded(Advanced(rs)) && i < j < |Advanced(rs)| && Advanced(rs)[i].rest[0].time == Advanced(rs)[j].rest[0].time
    ensures Preferred(ps + [p], Advanced(rs)[i].file, Advanced(rs)[j].file)
  {
    hide LastTurn;
    var r, d := Advanced(rs), |rs| - |Advanced(rs)|;
    LastTurnMore(ps, p, r[i].file);
    LastTurnMore(ps, p, r[j].file);
    assert r[j] == rs[j + d] && rs[j + d].file != p.file;
    if i + d > 0 {
      assert r[i] == rs[i + d] && rs[i + d].file != p.file;
      assert Preferred(ps, rs[i + d].file, rs[j + d].file);
    }
  }

  /** The first of the sorted readers is the one whose turn it is. */
  lemma {:induction false} FirstHasTurn(files: seq<seq<TimeStep>>, ps: seq<Processed>, rs: seq<Reader>, p: Processed)
    requires Loaded(rs) && DistinctFiles(rs) && ByTime(rs) && InTurn(ps, rs) && rs != [] && p == Processed(rs[0].file, rs[0].rest[0])
    requires rs[0].file < |files| && forall f: nat :: Of(ps, f) + RestOf(rs, f) == if f < |files| then files[f] else []
    ensures Follows(files, ps, p)
  {
    hide Of, RestOf, Preferred;
    RestIs(rs, 0);
    assert Of(ps, p.file) + rs[0].rest == files[p.file];
    forall g | 0 <= g < |files| && g != p.file && |Of(ps, g)| < |files[g]|
      ensures var t, u := p.step.time, files[g][|Of(ps, g)|].time;
              t < u || (t == u && Preferred(ps, p.file, g))
    {
      assert Of(ps, g) + RestOf(rs, g) == files[g];
      if i :| 0 <= i < |rs| && rs[i].file == g {
        RestIs(rs, i);
        assert rs[i].rest[0] == files[g][|Of(ps, g)|];
      } else {
        NoRest(rs, g);
        assert false;
      }
    }
  }

  /** The readers that have something to read, one for each file that is not empty. */
  method Open(files: seq<seq<TimeStep>>) returns (rs: seq<Reader>)
    ensures Loaded(rs) && DistinctFiles(rs)
    ensures forall f: nat :: RestOf(rs, f) == if f < |files| then files[f] else []
    ensures forall i :: 0 <= i < |rs| ==> rs[i].file < |files| && rs[i].rest == files[rs[i].file]
    ensures InTurn([], rs)
  {
    rs := [];
    for n := 0 to |files|
      invariant OpenedUpTo(files, n, rs)
    {
      if files[n] != [] {
        OneMoreOpen(files, n, rs);
        rs := rs + [Reader(n, files[n])];
      }
    }
    Opened(files, rs);
  }

  /** A reader for each of the first n files that is not empty, in the order of the files. */
  ghost predicate OpenedUpTo(files: seq<seq<TimeStep>>, n: nat, rs: seq<Reader>)
    requires n <= |files|
  {
    && (forall i :: 0 <= i < |rs| ==> rs[i].file < n && rs[i].rest == files[rs[i].file] && rs[i].rest != [])
    && (forall i, j :: 0 <= i < j < |rs| ==> rs[i].file < rs[j].file)
    && (forall f :: 0 <= f < n && files[f] != [] ==> exists i :: 0 <= i < |rs| && rs[i].file == f)
  }

  lemma {:induction false} OneMoreOpen(files: seq<seq<TimeStep>>, n: nat, rs: seq<Reader>)
    requires n < |files| && files[n] != [] && OpenedUpTo(files, n, rs)
    ensures OpenedUpTo(files, n + 1, rs + [Reader(n, files[n])])
  {
    var more := rs + [Reader(n, files[n])];
    assert more[|rs|].file == n;
    forall f | 0 <= f < n && files[f] != []
      ensures exists i :: 0 <= i < |more| && more[i].file == f
    {
      var i :| 0 <= i < |rs| && rs[i].file == f;
      assert more[i].file == f;
    }
  }

  lemma {:induction false} Opened(files: seq<seq<TimeStep>>, rs: seq<Reader>)
    requires OpenedUpTo(files, |files|, rs)
    ensures Loaded(rs) && DistinctFiles(rs) && InTurn([], rs)
    ensures forall f: nat :: RestOf(rs, f) == if f < |files| then files[f] else []
  {
    hide RestOf;
    forall f: nat
      ensures RestOf(rs, f) == if f < |files| then files[f] else []
    {
      if f < |files| && files[f] != [] {
        var i :| 0 <= i < |rs| && rs[i].file == f;
        RestIs(rs, i);
      } else {
        NoRest(rs, f);
      }
    }
  }

  /**
   * Always hands on the step of the reader that has the least time. It terminates, hands on every
   * step of every file exactly once and in the order of its file, and the result is in order of
   * time whenever every file is.
   */
  method ReadPartitionedEvents(files: seq<seq<TimeStep>>) returns (ps: seq<Processed>)
    ensures forall f: nat :: Of(ps, f) == if f < |files| then files[f] else []
    ensures forall i :: 0 <= i < |ps| ==> ps[i].file < |files|
    ensures (forall f :: 0 <= f < |files| ==> Chronological(files[f])) ==> TimeSorted(ps)
    ensures forall k: nat :: k < |ps| ==> Follows(files, ps[..k], ps[k])
  {
    hide *;
    var rs := Open(files);
    ps := [];
    Start(files, rs);
    while rs != []
      invariant Loaded(rs) && Midway(files, ps, rs)
      decreases Remaining(rs)
    {
      LoadedFirst(rs);
      var sorted := Sort(rs);
      LoadedFirst(sorted);
      var p := Processed(sorted[0].file, sorted[0].rest[0]);
      Delivered(files, ps, rs, sorted, p);
      ps := ps + [p];
      rs := Advanced(sorted);
    }
    Finish(files, ps);
  }

  lemma {:induction false} LoadedFirst(rs: seq<Reader>)
    requires Loaded(rs) && rs != []
    ensures rs[0].rest != []
  {
  }

  /** What holds between two turns. */
  ghost predicate Midway(files: seq<seq<TimeStep>>, ps: seq<Processed>, rs: seq<Reader>)
    requires Loaded(rs)
  {
    && DistinctFiles(rs)
    && (forall f: nat :: Of(ps, f) + RestOf(rs, f) == if f < |files| then files[f] else [])
    && (forall i :: 0 <= i < |rs| ==> rs[i].file < |files|)
    && (forall i :: 0 <= i < |ps| ==> ps[i].file < |files|)
    && ((forall f :: 0 <= f < |files| ==> Chronological(files[f])) ==> Ahead(ps, rs))
    && InTurn(ps, rs) && AllFollow(files, ps)
  }

  /** One turn: the readers are sorted, and the first one hands on its step. */
  lemma {:induction false} Delivered(files: seq<seq<TimeStep>>, ps: seq<Processed>, rs: seq<Reader>, sorted: seq<Reader>, p: Processed)
    requires Loaded(rs) && rs != [] && Midway(files, ps, rs) && sorted == Sort(rs) && p == Processed(sorted[0].file, sorted[0].rest[0])
    ensures Loaded(Advanced(sorted)) && Midway(files, ps + [p], Advanced(sorted)) && Remaining(Advanced(sorted)) < Remaining(rs)
  {
    hide RestOf, Of, Sort, Chronological, Advanced, Remaining, DistinctFiles, Ahead, InTurn, AllFollow, Follows;
    Sorting(files, ps, rs, sorted);
    SortInTurn(ps, rs);
    FirstHasTurn(files, ps, sorted, p);
    AdvancedInTurn(ps, sorted, p);
    OneMoreFollows(files, ps, p);
    Delivering(files, ps, sorted, p);
  }

  ghost predicate AllFollow(files: seq<seq<TimeStep>>, ps: seq<Processed>)
  {
    forall k: nat :: k < |ps| ==> Follows(files, ps[..k], ps[k])
  }

  lemma {:induction false} OneMoreFollows(files: seq<seq<TimeStep>>, ps: seq<Processed>, p: Processed)
    requires AllFollow(files, ps) && Follows(files, ps, p)
    ensures AllFollow(files, ps + [p])
  {
    hide Follows;
    var more := ps + [p];
    forall k: nat | k < |more|
      ensures Follows(files, more[..k], more[k])
    {
      assert more[..k] == ps[..k];
      assert k == |ps| ==> ps[..k] == ps;
    }
  }

  lemma {:induction false} Start(files: seq<seq<TimeStep>>, rs: seq<Reader>)
    requires forall f: nat :: RestOf(rs, f) == if f < |files| then files[f] else []
    requires Loaded(rs) && DistinctFiles(rs) && InTurn([], rs)
    requires forall i :: 0 <= i < |rs| ==> rs[i].file < |files| && rs[i].rest == files[rs[i].file]
    ensures Midway(files, [], rs)
  {
    hide RestOf, InTurn, DistinctFiles;
  }

  lemma {:induction false} Finish(files: seq<seq<TimeStep>>, ps: seq<Processed>)
    requires Midway(files, ps, [])
    ensures forall f: nat :: Of(ps, f) == if f < |files| then files[f] else []
    ensures forall i :: 0 <= i < |ps| ==> ps[i].file < |files|
    ensures (forall f :: 0 <= f < |files| ==> Chronological(files[f])) ==> TimeSorted(ps)
    ensures forall k: nat :: k < |ps| ==> Follows(files, ps[..k], ps[k])
  {
    hide Of, Follows, Chronological, TimeSorted;
    assert forall f: nat :: RestOf([], f) == [];
  }

  /** Sorting the readers changes nothing about what is left. */
  lemma {:induction false} Sorting(files: seq<seq<TimeStep>>, ps: seq<Processed>, rs: seq<Reader>, sorted: seq<Reader>)
    requires Loaded(rs) && DistinctFiles(rs) && sorted == Sort(rs) && rs != []
    requires forall i :: 0 <= i < |rs| ==> rs[i].file < |files|
    ensures Loaded(sorted) && DistinctFiles(sorted) && ByTime(sorted) && sorted != []
    ensures forall f: nat :: RestOf(sorted, f) == RestOf(rs, f)
    ensures forall i :: 0 <= i < |sorted| ==> sorted[i].file < |files|
    ensures Ahead(ps, rs) ==> Ahead(ps, sorted)
    ensures Remaining(sorted) == Remaining(rs)
  {
    SortSorts(rs);
    StillDistinct(rs, sorted);
    hide RestOf, Remaining, Sort, ByTime;
    forall f: nat
      ensures RestOf(sorted, f) == RestOf(rs, f)
    {
      SameRest(sorted, rs, f);
    }
    forall i | 0 <= i < |sorted|
      ensures sorted[i] in rs
    {
      assert sorted[i] in multiset(rs);
    }
    SameRemaining(rs, sorted);
  }

  lemma {:induction false} SameRemaining(a: seq<Reader>, b: seq<Reader>)
    requires multiset(a) == multiset(b)
    ensures Remaining(a) == Remaining(b)
  {
    if a == [] {
      assert |multiset(b)| == |b|;
    } else {
      assert a[0] in multiset(b);
      var k :| 0 <= k < |b| && b[k] == a[0];
      assert a == [a[0]] + a[1..];
      RemovedOne(b, k);
      CancelOne(multiset(a[1..]), multiset(RemoveAt(b, k)), a[0]);
      SameRemaining(a[1..], RemoveAt(b, k));
      RemainingRemoved(b, k);
    }
  }

  lemma {:induction false} RemainingRemoved(rs: seq<Reader>, k: nat)
    requires k < |rs|
    ensures Remaining(rs) == Remaining(RemoveAt(rs, k)) + |rs[k].rest|
  {
    if k == 0 {
      assert RemoveAt(rs, 0) == rs[1..];
    } else {
      RemainingRemoved(rs[1..], k - 1);
      assert RemoveAt(rs, k)[1..] == RemoveAt(rs[1..], k - 1);
    }
  }

  /** Handing on the first step of the first reader. */
  lemma {:induction false} Delivering(files: seq<seq<TimeStep>>, ps: seq<Processed>, rs: seq<Reader>, p: Processed)
    requires Loaded(rs) && DistinctFiles(rs) && ByTime(rs) && rs != [] && p == Processed(rs[0].file, rs[0].rest[0])
    requires forall i :: 0 <= i < |rs| ==> rs[i].file < |files|
    ensures Loaded(Advanced(rs)) && DistinctFiles(Advanced(rs))
    ensures forall i :: 0 <= i < |Advanced(rs)| ==> Advanced(rs)[i].file < |files|
    ensures forall f: nat :: Of(ps + [p], f) + RestOf(Advanced(rs), f) == Of(ps, f) + RestOf(rs, f)
    ensures Ahead(ps, rs) ==> Ahead(ps + [p], Advanced(rs))
    ensures Remaining(Advanced(rs)) < Remaining(rs)
  {
    hide Of, RestOf, Advanced, Remaining, Ahead, DistinctFiles, ByTime;
    AdvancedFiles(rs);
    forall f: nat
      ensures Of(ps + [p], f) + RestOf(Advanced(rs), f) == Of(ps, f) + RestOf(rs, f)
    {
      DeliveredOf(ps, rs, p, f);
    }
    if Ahead(ps, rs) {
      StaysAhead(ps, rs, p);
    }
    LessRemains(rs);
  }

  lemma {:induction false} DeliveredOf(ps: seq<Processed>, rs: seq<Reader>, p: Processed, f: nat)
    requires Loaded(rs) && DistinctFiles(rs) && rs != [] && p == Processed(rs[0].file, rs[0].rest[0])
    ensures Of(ps + [p], f) + RestOf(Advanced(rs), f) == Of(ps, f) + RestOf(rs, f)
  {
    hide Of, RestOf, Advanced;
    OfMore(ps, p, f);
    AdvancedRest(rs, f);
    var was, rest := Of(ps, f), RestOf(Advanced(rs), f);
    assert was + [p.step] + rest == was + ([p.step] + rest);
    assert was + [] + rest == was + rest;
  }

  lemma {:induction false} LessRemains(rs: seq<Reader>)
    requires rs != [] && rs[0].rest != []
    ensures Remaining(Advanced(rs)) < Remaining(rs)
  {
    if |rs[0].rest| > 1 {
      assert Advanced(rs)[1..] == rs[1..];
    }
  }

  lemma {:induction false} AdvancedFiles(rs: seq<Reader>)
    requires Loaded(rs) && DistinctFiles(rs) && rs != []
    ensures Loaded(Advanced(rs)) && DistinctFiles(Advanced(rs))
    ensures forall i :: 0 <= i < |Advanced(rs)| ==> exists j :: 0 <= j < |rs| && Advanced(rs)[i].file == rs[j].file
  {
    var r := Advanced(rs);
    var d := |rs| - |r|;
    forall i | 0 <= i < |r|
      ensures r[i].file == rs[i + d].file && r[i].rest != [] && exists j :: 0 <= j < |rs| && r[i].file == rs[j].file
    {
      assert d == 0 && i > 0 ==> r[i] == rs[1..][i - 1];
      assert rs[i + d].file == r[i].file;
    }
  }

  lemma {:induction false} AdvancedRest(rs: seq<Reader>, f: nat)
    requires Loaded(rs) && DistinctFiles(rs) && rs != []
    ensures (if rs[0].file == f then [rs[0].rest[0]] + RestOf(Advanced(rs), f) else RestOf(Advanced(rs), f)) == RestOf(rs, f)
  {
    if rs[0].file == f {
      assert rs[0].rest == [rs[0].rest[0]] + rs[0].rest[1..];
      if |rs[0].rest| == 1 {
        forall i | 0 <= i < |rs[1..]|
          ensures rs[1..][i].file != f
        {
          assert rs[1..][i] == rs[i + 1];
        }
        NoRest(rs[1..], f);
      }
    } else if |rs[0].rest| > 1 {
      assert Advanced(rs)[1..] == rs[1..];
    }
  }

  lemma {:induction false} StaysAhead(ps: seq<Processed>, rs: seq<Reader>, p: Processed)
    requires Loaded(rs) && ByTime(rs) && rs != [] && p == Processed(rs[0].file, rs[0].rest[0]) && Ahead(ps, rs)
    ensures Ahead(ps + [p], Advanced(rs))
  {
    var r, d := Advanced(rs), |rs| - |Advanced(rs)|;
    forall k | 0 <= k < |r|
      ensures Chronological(r[k].rest)
      ensures forall j :: 0 <= j < |r[k].rest| ==> p.step.time <= r[k].rest[j].time
      ensures forall i, j :: 0 <= i < |ps| && 0 <= j < |r[k].rest| ==> ps[i].step.time <= r[k].rest[j].time
    {
      RestAhead(ps, rs, k, p);
    }
    hide Advanced;
    assert ps + [p] != [];
  }

  /** What reader k still has, after the step, is in order and not before anything handed on. */
  lemma {:induction false} RestAhead(ps: seq<Processed>, rs: seq<Reader>, k: nat, p: Processed)
    requires Loaded(rs) && ByTime(rs) && rs != [] && p == Processed(rs[0].file, rs[0].rest[0]) && Ahead(ps, rs)
    requires k < |Advanced(rs)|
    ensures var rest := Advanced(rs)[k].rest;
            && Chronological(rest)
            && (forall j :: 0 <= j < |rest| ==> p.step.time <= rest[j].time)
            && (forall i, j :: 0 <= i < |ps| && 0 <= j < |rest| ==> ps[i].step.time <= rest[j].time)
  {
    var d := |rs| - |Advanced(rs)|;
    var was, rest := rs[k + d].rest, Advanced(rs)[k].rest;
    var e := if d == 0 && k == 0 then 1 else 0;
    assert rest == was[e..];
    assert Chronological(was);
    assert rs[0].rest[0].time <= was[0].time;
    forall j | 0 <= j < |rest|
      ensures p.step.time <= rest[j].time
    {
      assert rest[j] == was[j + e];
      assert j + e > 0 ==> was[0].time <= was[j + e].time;
    }
    forall i, j | 0 <= i < |ps| && 0 <= j < |rest|
      ensures ps[i].step.time <= rest[j].time
    {
      assert rest[j] == rs[k + d].rest[j + e];
    }
  }
}
