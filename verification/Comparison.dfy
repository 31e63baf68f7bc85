/**
 * The comparison of two event files: two readers publish the events of their files in batches of
 * equal time, a comparator judges the batches, and a barrier of three keeps them in step.
 */
module Comparison {
  import opened Basics

  type Event = nat

  /** What a reader publishes: a batch of events of one time, and whether it was the last one. */
  datatype Pub = Pub(time: Option<nat>, events: seq<Event>, finished: bool)

  datatype Error = DifferentNumberOfEvents | DifferentEventTimes | NotChronologicalOrder | MissingEvent

  // ------------------------------------------------------------------ comparing two batches

  /** The events of b at the places in s, up to place n. */
  ghost function Chosen(b: seq<Event>, s: set<int>, n: nat): (r: multiset<Event>)
    requires n <= |b|
  {
    if n == 0 then multiset{} else Chosen(b, s, n - 1) + (if n - 1 in s then multiset{b[n - 1]} else multiset{})
  }

  lemma {:induction false} ChooseMore(b: seq<Event>, s: set<int>, j: nat, n: nat)
    requires n <= |b| && j < |b| && j !in s
    ensures Chosen(b, s + {j}, n) == Chosen(b, s, n) + (if j < n then multiset{b[j]} else multiset{})
  {
    if n > 0 {
      ChooseMore(b, s, j, n - 1);
      var was, later := Chosen(b, s, n - 1), Chosen(b, s + {j}, n - 1);
      assert Chosen(b, s + {j}, n) == later + (if n - 1 in s + {j} then multiset{b[n - 1]} else multiset{});
      assert Chosen(b, s, n) == was + (if n - 1 in s then multiset{b[n - 1]} else multiset{});
      hide Chosen;
      if j == n - 1 {
        assert later == was;
      } else {
        assert n - 1 in s + {j} <==> n - 1 in s;
      }
    }
  }

  lemma {:induction false} ChosenWithin(b: seq<Event>, s: set<int>, n: nat)
    requires n <= |b|
    ensures Chosen(b, s, n) <= multiset(b[..n])
  {
    if n > 0 {
      ChosenWithin(b, s, n - 1);
      assert b[..n] == b[..n - 1] + [b[n - 1]];
    }
  }

  /** If every place that is left holds something else, all events equal to e are chosen. */
  lemma {:induction false} AllChosen(b: seq<Event>, s: set<int>, e: Event, n: nat)
    requires n <= |b| && forall k :: 0 <= k < n && k !in s ==> b[k] != e
    ensures multiset(b[..n])[e] == Chosen(b, s, n)[e]
  {
    if n > 0 {
      AllChosen(b, s, e, n - 1);
      assert b[..n] == b[..n - 1] + [b[n - 1]];
    }
  }

  lemma {:induction false} ChosenNone(b: seq<Event>, n: nat)
    requires n <= |b|
    ensures Chosen(b, {}, n) == multiset{}
  {
    if n > 0 {
      ChosenNone(b, n - 1);
    }
  }

  /**
   * Matches every event of the first batch with an event of the second that was not matched yet.
   * This succeeds exactly if the first batch is contained in the second, repetitions counted;
   * otherwise the result is the first event that is one too many.
   */
  method CompareBatchOfEvents(b1: seq<Event>, b2: seq<Event>) returns (missing: Option<nat>)
    ensures missing.None? <==> multiset(b1) <= multiset(b2)
    ensures missing.Some? ==>
              && missing.value < |b1| && multiset(b1[..missing.value]) <= multiset(b2)
              && multiset(b1[..missing.value + 1])[b1[missing.value]] > multiset(b2)[b1[missing.value]]
  {
    var seen: set<int> := {};
    ChosenNone(b2, |b2|);
    assert b2[..|b2|] == b2 && b1[..|b1|] == b1;
    for i := 0 to |b1|
      invariant multiset(b1[..i]) == Chosen(b2, seen, |b2|)
    {
      var found := FirstMatch(b1[i], b2, seen);
      assert b1[..i + 1] == b1[..i] + [b1[i]];
      ChosenWithin(b2, seen, |b2|);
      if found.None? {
        AllChosen(b2, seen, b1[i], |b2|);
        MoreThanThere(b1, i + 1, b2, b1[i]);
        return Some(i);
      }
      ChooseMore(b2, seen, found.value, |b2|);
      seen := seen + {found.value};
    }
    ChosenWithin(b2, seen, |b2|);
    return None;
  }

  lemma {:induction false} MoreThanThere(b1: seq<Event>, i: nat, b2: seq<Event>, e: Event)
    requires i <= |b1| && multiset(b1[..i])[e] > multiset(b2)[e]
    ensures !(multiset(b1) <= multiset(b2))
  {
    assert b1 == b1[..i] + b1[i..];
    assert multiset(b1)[e] >= multiset(b1[..i])[e];
  }

  method FirstMatch(e: Event, b: seq<Event>, seen: set<int>) returns (found: Option<nat>)
    ensures found.Some? ==> found.value < |b| && found.value !in seen && b[found.value] == e
    ensures found.None? ==> forall k :: 0 <= k < |b| && k !in seen ==> b[k] != e
  {
    for j := 0 to |b|
      invariant forall k :: 0 <= k < j && k !in seen ==> b[k] != e
    {
      if j in seen {
        continue;
      }
      if b[j] == e {
        return Some(j);
      }
    }
    return None;
  }

  // ------------------------------------------------------------------ reading a file in batches

  datatype Timed = Timed(time: nat, event: Event)

  function Stamped(p: Pub): (r: seq<Timed>)
    ensures p.time.Some? ==> |r| == |p.events| && forall i :: 0 <= i < |r| ==> r[i] == Timed(p.time.value, p.events[i])
  {
    if p.time.None? then [] else seq(|p.events|, i requires 0 <= i < |p.events| => Timed(p.time.value, p.events[i]))
  }

  /** The file from which the batches were read. */
  function Replayed(ps: seq<Pub>): (r: seq<Timed>)
  {
    if ps == [] then [] else Replayed(ps[..|ps| - 1]) + Stamped(ps[|ps| - 1])
  }

  /** Batches as a reader publishes them; only a file without events has a batch without a time. */
  ghost predicate ValidPubs(ps: seq<Pub>)
  {
    && ps != []
    && (forall i :: 0 <= i < |ps| ==> (ps[i].finished <==> i == |ps| - 1))
    && (forall i :: 0 <= i < |ps| ==> (ps[i].time.None? <==> ps[i].events == []))
    && (forall i :: 0 <= i < |ps| ==> ps[i].time.None? ==> |ps| == 1)
  }

  /** Batches that follow each other have different times: no batch can be extended. */
  ghost predicate Maximal(ps: seq<Pub>)
  {
    forall i :: 0 <= i < |ps| - 1 ==> ps[i].time != ps[i + 1].time
  }

  method ReadInBatches(file: seq<Timed>) returns (ps: seq<Pub>)
    ensures ValidPubs(ps) && Maximal(ps) && Replayed(ps) == file
  {
    ps := [];
    var time: Option<nat> := None;
    var events: seq<Event> := [];
    hide Replayed, Stamped, Maximal;
    NothingRead();
    for i := 0 to |file|
      invariant SoFar(file[..i], ps, time, events)
    {
      assert file[..i + 1] == file[..i] + [file[i]];
      var t, e := file[i].time, file[i].event;
      if time.Some? && t != time.value {
        Published(file[..i], ps, time, events, t, e);
        ps := ps + [Pub(time, events, false)];
        time, events := Some(t), [e];
      } else {
        Extended(file[..i], ps, time, events, t, e);
        time, events := Some(t), events + [e];
      }
    }
    assert file[..|file|] == file;
    AtEnd(file, ps, time, events);
    ps := ps + [Pub(time, events, true)];
  }

  /** What was read so far: complete batches, and the one that is being collected. */
  ghost predicate SoFar(file: seq<Timed>, ps: seq<Pub>, time: Option<nat>, events: seq<Event>)
  {
    && Replayed(ps) + Stamped(Pub(time, events, true)) == file
    && (time.None? <==> events == []) && (time.None? ==> ps == [])
    && (forall j :: 0 <= j < |ps| ==> !ps[j].finished && ps[j].time.Some? && ps[j].events != [])
    && Maximal(ps) && (ps != [] ==> ps[|ps| - 1].time != time)
  }

  lemma {:induction false} NothingRead()
    ensures SoFar([], [], None, [])
  {
  }

  lemma {:induction false} ReplayedMore(ps: seq<Pub>, p: Pub)
    ensures Replayed(ps + [p]) == Replayed(ps) + Stamped(p)
  {
    assert (ps + [p])[..|ps + [p]| - 1] == ps;
  }

  lemma {:induction false} Published(file: seq<Timed>, ps: seq<Pub>, time: Option<nat>, events: seq<Event>, t: nat, e: Event)
    requires SoFar(file, ps, time, events) && time.Some? && time.value != t
    ensures SoFar(file + [Timed(t, e)], ps + [Pub(time, events, false)], Some(t), [e])
  {
    var p := Pub(time, events, false);
    ReplayedMore(ps, p);
    assert Stamped(p) == Stamped(Pub(time, events, true));
    assert Stamped(Pub(Some(t), [e], true)) == [Timed(t, e)];
    MaximalMore(ps, p);
    hide Replayed, Stamped, Maximal;
  }

  lemma {:induction false} MaximalMore(ps: seq<Pub>, p: Pub)
    requires Maximal(ps) && (ps != [] ==> ps[|ps| - 1].time != p.time)
    ensures Maximal(ps + [p])
  {
  }

  lemma {:induction false} Extended(file: seq<Timed>, ps: seq<Pub>, time: Option<nat>, events: seq<Event>, t: nat, e: Event)
    requires SoFar(file, ps, time, events) && (time == Some(t) || time == None)
    ensures SoFar(file + [Timed(t, e)], ps, Some(t), events + [e])
  {
    assert Stamped(Pub(Some(t), events + [e], true)) == Stamped(Pub(time, events, true)) + [Timed(t, e)];
    hide Stamped;
  }

  lemma {:induction false} AtEnd(file: seq<Timed>, ps: seq<Pub>, time: Option<nat>, events: seq<Event>)
    requires SoFar(file, ps, time, events)
    ensures var all := ps + [Pub(time, events, true)];
            ValidPubs(all) && Maximal(all) && Replayed(all) == file
  {
    ReplayedMore(ps, Pub(time, events, true));
    hide Replayed, Stamped;
  }

  // ------------------------------------------------------------------ the comparator's judgement

  datatype Decision = Decision(leave: bool, stop: bool, result: Option<Error>, last: Option<nat>)

  predicate Contained(b1: seq<Event>, b2: seq<Event>)
  {
    multiset(b1) <= multiset(b2)
  }

  /** What the comparator makes of two batches; last is the time of the batches before. */
  function Judge(b1: Pub, b2: Pub, last: Option<nat>): (d: Decision)
  {
    if b1.finished && b2.finished then
      if b1.time.Some? && b2.time.Some? && b1.time != b2.time then Decision(true, true, Some(DifferentEventTimes), last)
      else if b1.time.Some? && b2.time.Some? && !Contained(b1.events, b2.events) then Decision(true, true, Some(MissingEvent), last)
      else Decision(true, false, None, last)
    else if b1.finished != b2.finished then Decision(true, true, Some(DifferentNumberOfEvents), last)
    else if b1.time.Some? && b2.time.Some? then
      if b1.time != b2.time then Decision(true, true, Some(DifferentEventTimes), last)
      else if last.Some? && b1.time.value < last.value then Decision(true, true, Some(NotChronologicalOrder), last)
      else if !Contained(b1.events, b2.events) then Decision(true, true, Some(MissingEvent), last)
      else Decision(false, false, None, b1.time)
    else Decision(true, true, None, last)
  }

  /** The judgement over all rounds from k on. */
  ghost function Verdict(p1: seq<Pub>, p2: seq<Pub>, k: nat, last: Option<nat>): (r: Option<Error>)
    decreases |p1| - k
  {
    if k >= |p1| || k >= |p2| then None
    else
      var d := Judge(p1[k], p2[k], last);
      if d.leave then d.result else Verdict(p1, p2, k + 1, d.last)
  }

  /** No judgement is possible only if a reader published a batch without a time before its end. */
  lemma {:induction false} GoesOnOnlyIfNoneFinished(p1: seq<Pub>, p2: seq<Pub>, k: nat, last: Option<nat>)
    requires ValidPubs(p1) && ValidPubs(p2) && k < |p1| && k < |p2|
    ensures var d := Judge(p1[k], p2[k], last);
            && (!d.leave ==> !d.stop && d.result == None && k + 1 < |p1| && k + 1 < |p2|)
            && (d.leave ==> d.stop || (p1[k].finished && p2[k].finished))
            && (d.stop ==> d.result.Some?)
  {
  }

  // ------------------------------------------------------------------ the three threads

  datatype ReaderPc = Check | Publish | WaitA | BeforeB | WaitB | After | Left

  /** A reader in its round k. */
  datatype Reader = Reader(k: nat, pc: ReaderPc)

  datatype CompPc = ToA | AtA | Take1 | Take2 | Decide | AtB | Resume | Gone

  datatype Comparator = Comparator(k: nat, pc: CompPc, got1: Pub, got2: Pub, last: Option<nat>, leave: bool)

  datatype State = State(
    r1: Reader, r2: Reader, c: Comparator,
    slot1: Pub, slot2: Pub, stop: bool, result: Option<Error>,
    seen: seq<(Pub, Pub)>)

  datatype Action = Reader1 | Reader2 | Compare | Release

  predicate ReaderWaits(r: Reader)
  {
    r.pc == WaitA || r.pc == WaitB
  }

  predicate CompWaits(c: Comparator)
  {
    c.pc == AtA || c.pc == AtB
  }

  /** A thread can step unless it waits or has left; the barrier releases three that wait, whatever for. */
  predicate CanStep(s: State, a: Action)
  {
    match a
    case Reader1 => !ReaderWaits(s.r1) && s.r1.pc != Left
    case Reader2 => !ReaderWaits(s.r2) && s.r2.pc != Left
    case Compare => !CompWaits(s.c) && s.c.pc != Gone
    case Release => ReaderWaits(s.r1) && ReaderWaits(s.r2) && CompWaits(s.c)
  }

  function ReaderNext(r: Reader, p: seq<Pub>, stop: bool): (r1: Reader)
    requires r.k < |p|
  {
    match r.pc
    case Check => if stop then r.(pc := Left) else r.(pc := Publish)
    case Publish => r.(pc := WaitA)
    case BeforeB => r.(pc := WaitB)
    case After => if p[r.k].finished || stop then r.(pc := Left) else Reader(r.k + 1, Check)
    case _ => r
  }

  function Released(r: Reader): (r1: Reader)
  {
    if r.pc == WaitA then r.(pc := BeforeB) else r.(pc := After)
  }

  function CompareNext(s: State): (s1: State)
  {
    var c := s.c;
    match c.pc
    case ToA => s.(c := c.(pc := AtA))
    case Take1 => s.(c := c.(pc := Take2, got1 := s.slot1), slot1 := s.slot1.(events := []))
    case Take2 => s.(c := c.(pc := Decide, got2 := s.slot2), slot2 := s.slot2.(events := []))
    case Decide =>
      var d := Judge(c.got1, c.got2, c.last);
      s.(c := c.(pc := AtB, last := d.last, leave := d.leave), stop := s.stop || d.stop,
         result := if d.result.Some? then d.result else s.result, seen := s.seen + [(c.got1, c.got2)])
    case Resume => s.(c := if c.leave then c.(pc := Gone) else c.(pc := ToA, k := c.k + 1))
    case _ => s
  }

  function Step(p1: seq<Pub>, p2: seq<Pub>, s: State, a: Action): (s1: State)
    requires s.r1.k < |p1| && s.r2.k < |p2|
  {
    match a
    case Reader1 =>
      s.(r1 := ReaderNext(s.r1, p1, s.stop), slot1 := if s.r1.pc == Publish then p1[s.r1.k] else s.slot1)
    case Reader2 =>
      s.(r2 := ReaderNext(s.r2, p2, s.stop), slot2 := if s.r2.pc == Publish then p2[s.r2.k] else s.slot2)
    case Compare => CompareNext(s)
    case Release =>
      s.(r1 := Released(s.r1), r2 := Released(s.r2), c := s.c.(pc := if s.c.pc == AtA then Take1 else Resume))
  }

  // ------------------------------------------------------------------ the invariant

  ghost function Pairs(p1: seq<Pub>, p2: seq<Pub>, k: nat): (r: seq<(Pub, Pub)>)
    requires k <= |p1| && k <= |p2|
  {
    seq(k, i requires 0 <= i < k => (p1[i], p2[i]))
  }

  /** A reader on its way to the first wait of round k. */
  ghost predicate Gathers(r: Reader, k: nat, p: seq<Pub>, slot: Pub)
    requires k < |p|
  {
    || (r.pc == After && r.k + 1 == k && !p[r.k].finished)
    || (r.k == k && (r.pc == Check || r.pc == Publish || (r.pc == WaitA && slot == p[k])))
  }

  ghost predicate CompGathers(c: Comparator, k: nat)
  {
    || (c.pc == Resume && !c.leave && c.k + 1 == k)
    || (c.k == k && (c.pc == ToA || c.pc == AtA))
  }

  /** Before the first wait of round k: nothing is decided, and everyone comes. */
  ghost predicate Gathering(p1: seq<Pub>, p2: seq<Pub>, s: State, k: nat)
  {
    && k < |p1| && k < |p2|
    && Gathers(s.r1, k, p1, s.slot1) && Gathers(s.r2, k, p2, s.slot2) && CompGathers(s.c, k)
    && !s.stop && s.result == None && s.seen == Pairs(p1, p2, k)
    && Verdict(p1, p2, 0, None) == Verdict(p1, p2, k, s.c.last)
  }

  ghost predicate Pauses(r: Reader, k: nat)
  {
    r.k == k && (r.pc == BeforeB || r.pc == WaitB)
  }

  /** Between the waits of round k: the readers do nothing, and the comparator takes their batches. */
  ghost predicate Comparing(p1: seq<Pub>, p2: seq<Pub>, s: State, k: nat)
  {
    && k < |p1| && k < |p2| && Pauses(s.r1, k) && Pauses(s.r2, k) && s.c.k == k
    && !s.stop && s.result == None && s.seen == Pairs(p1, p2, k)
    && Verdict(p1, p2, 0, None) == Verdict(p1, p2, k, s.c.last)
    && (s.c.pc == Take1 || s.c.pc == Take2 || s.c.pc == Decide)
    && (if s.c.pc == Take1 then s.slot1 == p1[k] else s.c.got1 == p1[k])
    && (if s.c.pc == Decide then s.c.got2 == p2[k] else s.slot2 == p2[k])
  }

  /** Round k is decided; if it was the last, the verdict is known and every reader has reason to leave. */
  ghost predicate Decided(p1: seq<Pub>, p2: seq<Pub>, s: State, k: nat)
  {
    && k < |p1| && k < |p2| && s.c.k == k && s.seen == Pairs(p1, p2, k + 1)
    && (if s.c.leave then
          s.result == Verdict(p1, p2, 0, None) && (s.stop || (p1[k].finished && p2[k].finished))
        else
          && !s.stop && s.result == None && k + 1 < |p1| && k + 1 < |p2|
          && Verdict(p1, p2, 0, None) == Verdict(p1, p2, k + 1, s.c.last))
  }

  ghost predicate Waiting(p1: seq<Pub>, p2: seq<Pub>, s: State, k: nat)
  {
    Decided(p1, p2, s, k) && s.c.pc == AtB && Pauses(s.r1, k) && Pauses(s.r2, k)
  }

  ghost predicate Leaves(r: Reader, k: nat)
  {
    r.k == k && (r.pc == After || r.pc == Left)
  }

  /** After the last wait: everyone leaves, in this very round. */
  ghost predicate Leaving(p1: seq<Pub>, p2: seq<Pub>, s: State, k: nat)
  {
    && Decided(p1, p2, s, k) && s.c.leave && (s.c.pc == Resume || s.c.pc == Gone)
    && Leaves(s.r1, k) && Leaves(s.r2, k)
  }

  ghost predicate InRound(p1: seq<Pub>, p2: seq<Pub>, s: State, k: nat)
  {
    Gathering(p1, p2, s, k) || Comparing(p1, p2, s, k) || Waiting(p1, p2, s, k) || Leaving(p1, p2, s, k)
  }

  ghost predicate Inv(p1: seq<Pub>, p2: seq<Pub>, s: State)
  {
    ValidPubs(p1) && ValidPubs(p2) && exists k: nat :: InRound(p1, p2, s, k)
  }

  ghost predicate Initial(s: State)
  {
    && s.r1 == Reader(0, Check) && s.r2 == Reader(0, Check)
    && s.c.k == 0 && s.c.pc == ToA && s.c.last == None
    && !s.stop && s.result == None && s.seen == []
  }

  lemma {:induction false} InitialInv(p1: seq<Pub>, p2: seq<Pub>, s: State)
    requires ValidPubs(p1) && ValidPubs(p2) && Initial(s)
    ensures Inv(p1, p2, s)
  {
    assert Pairs(p1, p2, 0) == [];
    assert Gathering(p1, p2, s, 0);
    assert InRound(p1, p2, s, 0);
  }

  lemma {:induction false} PairsMore(p1: seq<Pub>, p2: seq<Pub>, k: nat)
    requires k < |p1| && k < |p2|
    ensures Pairs(p1, p2, k + 1) == Pairs(p1, p2, k) + [(p1[k], p2[k])]
  {
  }

  lemma {:induction false} ReadersKnow(p1: seq<Pub>, p2: seq<Pub>, s: State, k: nat)
    requires InRound(p1, p2, s, k)
    ensures s.r1.k < |p1| && s.r2.k < |p2|
  {
    hide Verdict;
  }

  lemma {:induction false} GatheringStep(p1: seq<Pub>, p2: seq<Pub>, s: State, k: nat, a: Action)
    requires ValidPubs(p1) && ValidPubs(p2) && Gathering(p1, p2, s, k) && CanStep(s, a)
    requires s.r1.k < |p1| && s.r2.k < |p2|
    ensures Gathering(p1, p2, Step(p1, p2, s, a), k) || Comparing(p1, p2, Step(p1, p2, s, a), k)
  {
    hide Verdict, Pairs, ValidPubs;
  }

  lemma {:induction false} ComparingStep(p1: seq<Pub>, p2: seq<Pub>, s: State, k: nat, a: Action)
    requires ValidPubs(p1) && ValidPubs(p2) && Comparing(p1, p2, s, k) && CanStep(s, a)
    requires s.r1.k < |p1| && s.r2.k < |p2|
    ensures Comparing(p1, p2, Step(p1, p2, s, a), k) || Waiting(p1, p2, Step(p1, p2, s, a), k)
  {
    GoesOnOnlyIfNoneFinished(p1, p2, k, s.c.last);
    PairsMore(p1, p2, k);
    VerdictHere(p1, p2, k, s.c.last);
    hide Verdict, Pairs, ValidPubs, Judge;
  }

  lemma {:induction false} VerdictHere(p1: seq<Pub>, p2: seq<Pub>, k: nat, last: Option<nat>)
    requires ValidPubs(p1) && ValidPubs(p2) && k < |p1| && k < |p2|
    ensures var d := Judge(p1[k], p2[k], last);
            && (d.leave ==> Verdict(p1, p2, k, last) == d.result)
            && (!d.leave ==> k + 1 < |p1| && k + 1 < |p2| && Verdict(p1, p2, k, last) == Verdict(p1, p2, k + 1, d.last))
  {
    GoesOnOnlyIfNoneFinished(p1, p2, k, last);
  }

  lemma {:induction false} WaitingStep(p1: seq<Pub>, p2: seq<Pub>, s: State, k: nat, a: Action)
    requires ValidPubs(p1) && ValidPubs(p2) && Waiting(p1, p2, s, k) && CanStep(s, a)
    requires s.r1.k < |p1| && s.r2.k < |p2|
    ensures var s1 := Step(p1, p2, s, a);
            Waiting(p1, p2, s1, k) || Leaving(p1, p2, s1, k) || Gathering(p1, p2, s1, k + 1)
  {
    hide Verdict, Pairs;
  }

  lemma {:induction false} LeavingStep(p1: seq<Pub>, p2: seq<Pub>, s: State, k: nat, a: Action)
    requires ValidPubs(p1) && ValidPubs(p2) && Leaving(p1, p2, s, k) && CanStep(s, a)
    requires s.r1.k < |p1| && s.r2.k < |p2|
    ensures Leaving(p1, p2, Step(p1, p2, s, a), k)
  {
    hide Verdict, Pairs, ValidPubs;
  }

  lemma {:induction false} StepKeepsInv(p1: seq<Pub>, p2: seq<Pub>, s: State, a: Action)
    requires Inv(p1, p2, s) && CanStep(s, a)
    ensures s.r1.k < |p1| && s.r2.k < |p2| && Inv(p1, p2, Step(p1, p2, s, a))
  {
    var k: nat :| InRound(p1, p2, s, k);
    ReadersKnow(p1, p2, s, k);
    var s1 := Step(p1, p2, s, a);
    if Gathering(p1, p2, s, k) {
      GatheringStep(p1, p2, s, k, a);
    } else if Comparing(p1, p2, s, k) {
      ComparingStep(p1, p2, s, k, a);
    } else if Waiting(p1, p2, s, k) {
      WaitingStep(p1, p2, s, k, a);
    } else {
      LeavingStep(p1, p2, s, k, a);
    }
    hide Gathering, Comparing, Waiting, Leaving, Step, Verdict, ValidPubs;
    assert InRound(p1, p2, s1, k) || InRound(p1, p2, s1, k + 1);
  }

  // ------------------------------------------------------------------ every interleaving

  ghost predicate AllLeft(s: State)
  {
    s.r1.pc == Left && s.r2.pc == Left && s.c.pc == Gone
  }

  /** As long as not everyone has left, someone can go on. */
  lemma {:induction false} NoDeadlock(p1: seq<Pub>, p2: seq<Pub>, s: State)
    requires Inv(p1, p2, s) && !AllLeft(s)
    ensures CanStep(s, Reader1) || CanStep(s, Reader2) || CanStep(s, Compare) || CanStep(s, Release)
  {
    hide Verdict, Pairs, ValidPubs;
    var k: nat :| InRound(p1, p2, s, k);
  }

  function ReaderProgress(r: Reader): (n: nat)
  {
    7 * r.k + match r.pc
      case Check => 0 case Publish => 1 case WaitA => 2 case BeforeB => 3 case WaitB => 4 case After => 5 case Left => 6
  }

  function CompProgress(c: Comparator): (n: nat)
  {
    8 * c.k + match c.pc
      case ToA => 0 case AtA => 1 case Take1 => 2 case Take2 => 3 case Decide => 4 case AtB => 5 case Resume => 6 case Gone => 7
  }

  function Progress(s: State): (n: nat)
  {
    ReaderProgress(s.r1) + ReaderProgress(s.r2) + CompProgress(s.c)
  }

  /** Every step is progress. */
  lemma {:induction false} StepIsProgress(p1: seq<Pub>, p2: seq<Pub>, s: State, a: Action)
    requires s.r1.k < |p1| && s.r2.k < |p2| && CanStep(s, a)
    ensures Progress(Step(p1, p2, s, a)) > Progress(s)
  {
    hide Judge;
  }

  lemma {:induction false} ProgressBound(p1: seq<Pub>, p2: seq<Pub>, s: State)
    requires Inv(p1, p2, s)
    ensures Progress(s) < 15 * |p1| + 7 * |p2|
  {
    hide Verdict, Pairs, ValidPubs;
    var k: nat :| InRound(p1, p2, s, k);
    assert s.r1.k < |p1| && s.r2.k < |p2| && s.c.k < |p1|;
  }

  /** A schedule: any sequence of actions, each possible when it is taken. */
  ghost predicate Runs(p1: seq<Pub>, p2: seq<Pub>, states: seq<State>, acts: seq<Action>)
  {
    && |states| == |acts| + 1 && Initial(states[0])
    && forall i :: 0 <= i < |acts| ==>
         && CanStep(states[i], acts[i]) && states[i].r1.k < |p1| && states[i].r2.k < |p2|
         && states[i + 1] == Step(p1, p2, states[i], acts[i])
  }

  lemma {:induction false} RunKeepsInv(p1: seq<Pub>, p2: seq<Pub>, states: seq<State>, acts: seq<Action>, i: nat)
    requires ValidPubs(p1) && ValidPubs(p2) && Runs(p1, p2, states, acts) && i < |states|
    ensures Inv(p1, p2, states[i]) && Progress(states[i]) >= i
  {
    hide Inv, ValidPubs, Initial, CanStep, Step, Progress;
    if i == 0 {
      InitialInv(p1, p2, states[0]);
    } else {
      RunKeepsInv(p1, p2, states, acts, i - 1);
      StepKeepsInv(p1, p2, states[i - 1], acts[i - 1]);
      StepIsProgress(p1, p2, states[i - 1], acts[i - 1]);
    }
  }

  /**
   * Every interleaving ends: no schedule is longer than a bound that depends on the files only, and
   * one that cannot be continued has led all three threads out.
   */
  lemma {:induction false} EveryScheduleEnds(p1: seq<Pub>, p2: seq<Pub>, states: seq<State>, acts: seq<Action>)
    requires ValidPubs(p1) && ValidPubs(p2) && Runs(p1, p2, states, acts)
    ensures |acts| < 15 * |p1| + 7 * |p2|
    ensures (forall a :: !CanStep(states[|acts|], a)) ==> AllLeft(states[|acts|])
  {
    hide Inv, ValidPubs, CanStep, Step, Progress, AllLeft;
    RunKeepsInv(p1, p2, states, acts, |acts|);
    ProgressBound(p1, p2, states[|acts|]);
    if !AllLeft(states[|acts|]) {
      NoDeadlock(p1, p2, states[|acts|]);
    }
  }

  /** In every state of every schedule the comparator has seen the first batches of both files, pair by pair. */
  lemma {:induction false} SeesTheSameRounds(p1: seq<Pub>, p2: seq<Pub>, states: seq<State>, acts: seq<Action>, i: nat, j: nat)
    requires ValidPubs(p1) && ValidPubs(p2) && Runs(p1, p2, states, acts) && i < |states| && j < |states[i].seen|
    ensures j < |p1| && j < |p2| && states[i].seen[j] == (p1[j], p2[j])
  {
    hide ValidPubs, CanStep, Step, Progress, Verdict, Runs;
    RunKeepsInv(p1, p2, states, acts, i);
    var k: nat :| InRound(p1, p2, states[i], k);
  }

  /** Once everyone has left, they left in the same round, and the result is the verdict on the files. */
  lemma {:induction false} AllLeaveTogether(p1: seq<Pub>, p2: seq<Pub>, states: seq<State>, acts: seq<Action>, i: nat)
    requires ValidPubs(p1) && ValidPubs(p2) && Runs(p1, p2, states, acts) && i < |states| && AllLeft(states[i])
    ensures states[i].r1.k == states[i].r2.k == states[i].c.k
    ensures states[i].result == Verdict(p1, p2, 0, None)
  {
    hide ValidPubs, CanStep, Step, Progress, Verdict, Runs;
    RunKeepsInv(p1, p2, states, acts, i);
    var k: nat :| InRound(p1, p2, states[i], k);
  }

  // ------------------------------------------------------------------ what Ok means

  /** Round k passes: equal times, not before the round before, and the first batch contained in the second. */
  ghost predicate Passes(p1: seq<Pub>, p2: seq<Pub>, k: nat)
    requires k < |p1| && k < |p2|
  {
    p1[k].time == p2[k].time && Contained(p1[k].events, p2[k].events)
  }

  ghost predicate NotBefore(t: Option<nat>, last: Option<nat>)
  {
    last.Some? && t.Some? ==> last.value <= t.value
  }

  /** From batch from on, all batches but the last pass, and none is before the one before it. */
  ghost predicate RoundsPass(p1: seq<Pub>, p2: seq<Pub>, from: nat)
    requires |p1| == |p2|
  {
    && (forall k :: from <= k < |p1| - 1 ==> Passes(p1, p2, k))
    && (forall k :: from < k < |p1| - 1 ==> NotBefore(p1[k].time, p1[k - 1].time))
  }

  /**
   * The files are accepted exactly if they have the same number of batches, all batches but the
   * last pass and are in order, and the last ones pass or one of the files is empty.
   */
  ghost predicate Accepted(p1: seq<Pub>, p2: seq<Pub>, from: nat, last: Option<nat>)
    requires from < |p1| && from < |p2|
  {
    && |p1| == |p2|
    && RoundsPass(p1, p2, from) && (from < |p1| - 1 ==> NotBefore(p1[from].time, last))
    && (Passes(p1, p2, |p1| - 1) || p1[|p1| - 1].time.None? || p2[|p2| - 1].time.None?)
  }

  lemma {:induction false} OkMeansAccepted(p1: seq<Pub>, p2: seq<Pub>, k: nat, last: Option<nat>)
    requires ValidPubs(p1) && ValidPubs(p2) && k < |p1| && k < |p2|
    ensures Verdict(p1, p2, k, last) == None <==> Accepted(p1, p2, k, last)
    decreases |p1| - k
  {
    hide Contained;
    var d := Judge(p1[k], p2[k], last);
    if d.leave {
      LeaveCase(p1, p2, k, last);
    } else {
      GoesOnOnlyIfNoneFinished(p1, p2, k, last);
      OkMeansAccepted(p1, p2, k + 1, d.last);
      ContinueCase(p1, p2, k, last);
    }
  }

  lemma {:induction false} LeaveCase(p1: seq<Pub>, p2: seq<Pub>, k: nat, last: Option<nat>)
    requires ValidPubs(p1) && ValidPubs(p2) && k < |p1| && k < |p2| && Judge(p1[k], p2[k], last).leave
    ensures Judge(p1[k], p2[k], last).result == None <==> Accepted(p1, p2, k, last)
  {
    hide Contained;
    if !p1[k].finished && |p1| == |p2| && RoundsPass(p1, p2, k) {
      assert Passes(p1, p2, k);
    }
  }

  lemma {:induction false} ContinueCase(p1: seq<Pub>, p2: seq<Pub>, k: nat, last: Option<nat>)
    requires ValidPubs(p1) && ValidPubs(p2) && k + 1 < |p1| && k + 1 < |p2| && !Judge(p1[k], p2[k], last).leave
    ensures Accepted(p1, p2, k, last) <==> Accepted(p1, p2, k + 1, p1[k].time)
  {
    hide Contained;
    assert Passes(p1, p2, k) && NotBefore(p1[k].time, last);
    if |p1| == |p2| {
      OneRoundMore(p1, p2, k);
    }
  }

  lemma {:induction false} OneRoundMore(p1: seq<Pub>, p2: seq<Pub>, k: nat)
    requires |p1| == |p2| && k + 1 < |p1| && Passes(p1, p2, k)
    ensures RoundsPass(p1, p2, k) <==> RoundsPass(p1, p2, k + 1) && (k + 1 < |p1| - 1 ==> NotBefore(p1[k + 1].time, p1[k].time))
  {
    hide Passes, NotBefore;
    if RoundsPass(p1, p2, k + 1) && (k + 1 < |p1| - 1 ==> NotBefore(p1[k + 1].time, p1[k].time)) {
      forall j | k < j < |p1| - 1
        ensures NotBefore(p1[j].time, p1[j - 1].time)
      {
        if j > k + 1 {
          assert NotBefore(p1[j].time, p1[j - 1].time);
        }
      }
    }
    if RoundsPass(p1, p2, k) && k + 1 < |p1| - 1 {
      assert NotBefore(p1[k + 1].time, p1[k + 1 - 1].time);
    }
  }

  // ------------------------------------------------------------------ which error is reported

  /** In round k the readers go on, the times are equal and not before those of the round before, and the first batch is contained in the second. */
  ghost predicate Fine(p1: seq<Pub>, p2: seq<Pub>, k: nat)
  {
    && k + 1 < |p1| && k + 1 < |p2| && p1[k].time == p2[k].time && multiset(p1[k].events) <= multiset(p2[k].events)
    && (k > 0 ==> NotBefore(p1[k].time, p1[k - 1].time))
  }

  ghost predicate FineUntil(p1: seq<Pub>, p2: seq<Pub>, k: nat)
  {
    k < |p1| && k < |p2| && forall j :: 0 <= j < k ==> Fine(p1, p2, j)
  }

  /** What is wrong in round k: a file ends, the times differ, they go back in time, or an event is missing in the second batch. */
  ghost predicate Fault(p1: seq<Pub>, p2: seq<Pub>, k: nat, e: Error)
    requires k < |p1| && k < |p2|
  {
    var end1, end2 := k + 1 == |p1|, k + 1 == |p2|;
    var t1, t2 := p1[k].time, p2[k].time;
    match e
    case DifferentNumberOfEvents => end1 != end2
    case DifferentEventTimes => end1 == end2 && t1.Some? && t2.Some? && t1 != t2
    case NotChronologicalOrder => !end1 && !end2 && t1 == t2 && k > 0 && !NotBefore(t1, p1[k - 1].time)
    case MissingEvent =>
      && end1 == end2 && t1.Some? && t1 == t2 && (end1 || k == 0 || NotBefore(t1, p1[k - 1].time))
      && !(multiset(p1[k].events) <= multiset(p2[k].events))
  }

  /** The time of the round before k. */
  function TimeBefore(p: seq<Pub>, k: nat): (t: Option<nat>)
    requires k <= |p|
  {
    if k == 0 then None else p[k - 1].time
  }

  /** A round is judged by its fault, if it has one. */
  lemma {:induction false} FaultIsJudged(p1: seq<Pub>, p2: seq<Pub>, k: nat, e: Error)
    requires ValidPubs(p1) && ValidPubs(p2) && k < |p1| && k < |p2|
    ensures var d := Judge(p1[k], p2[k], TimeBefore(p1, k));
            && (d.leave && d.result == Some(e) <==> Fault(p1, p2, k, e))
            && (!d.leave <==> Fine(p1, p2, k)) && (!d.leave ==> d.last == p1[k].time)
  {
  }

  lemma {:induction false} FineRoundsPass(p1: seq<Pub>, p2: seq<Pub>, k: nat)
    requires ValidPubs(p1) && ValidPubs(p2) && FineUntil(p1, p2, k)
    ensures Verdict(p1, p2, 0, None) == Verdict(p1, p2, k, TimeBefore(p1, k))
  {
    hide ValidPubs, Judge, Fine;
    if k > 0 {
      assert Fine(p1, p2, k - 1);
      FineRoundsPass(p1, p2, k - 1);
      FaultIsJudged(p1, p2, k - 1, MissingEvent);
    }
  }

  lemma {:induction false} FindFault(p1: seq<Pub>, p2: seq<Pub>, k: nat, e: Error) returns (i: nat)
    requires ValidPubs(p1) && ValidPubs(p2) && FineUntil(p1, p2, k) && Verdict(p1, p2, k, TimeBefore(p1, k)) == Some(e)
    ensures FineUntil(p1, p2, i) && Fault(p1, p2, i, e)
    decreases |p1| - k
  {
    hide ValidPubs, Judge, Fault;
    FaultIsJudged(p1, p2, k, e);
    if Judge(p1[k], p2[k], TimeBefore(p1, k)).leave {
      i := k;
    } else {
      i := FindFault(p1, p2, k + 1, e);
    }
  }

  /** An error is reported exactly if it is what is wrong in the first round that is not fine. */
  lemma {:induction false} ErrorIff(p1: seq<Pub>, p2: seq<Pub>, e: Error)
    requires ValidPubs(p1) && ValidPubs(p2)
    ensures Verdict(p1, p2, 0, None) == Some(e) <==> exists k: nat :: FineUntil(p1, p2, k) && Fault(p1, p2, k, e)
  {
    hide Judge, Fault, Fine;
    if Verdict(p1, p2, 0, None) == Some(e) {
      var i := FindFault(p1, p2, 0, e);
    }
    if k: nat :| FineUntil(p1, p2, k) && Fault(p1, p2, k, e) {
      FineRoundsPass(p1, p2, k);
      FaultIsJudged(p1, p2, k, e);
    }
  }

  /** For two files with events, Ok means equal times throughout, and every batch contained in its partner. */
  lemma {:induction false} OkOnNonEmptyFiles(p1: seq<Pub>, p2: seq<Pub>)
    requires ValidPubs(p1) && ValidPubs(p2) && p1[0].events != [] && p2[0].events != []
    requires Verdict(p1, p2, 0, None) == None
    ensures |p1| == |p2| && forall k :: 0 <= k < |p1| ==> Passes(p1, p2, k)
  {
    hide Contained, Verdict;
    OkMeansAccepted(p1, p2, 0, None);
  }

  /** An empty file is accepted against a file with a single batch, whatever is in it, and against no longer one. */
  lemma {:induction false} EmptyAgainst(p1: seq<Pub>, p2: seq<Pub>)
    requires ValidPubs(p1) && ValidPubs(p2) && p1[0].events == []
    ensures Verdict(p1, p2, 0, None) == None <==> |p2| == 1
    ensures Verdict(p2, p1, 0, None) == None <==> |p2| == 1
  {
    hide Contained, Verdict;
    OkMeansAccepted(p1, p2, 0, None);
    OkMeansAccepted(p2, p1, 0, None);
  }

  /** The comparison is not symmetric: the second file may have more events in a batch. */
  lemma {:induction false} NotSymmetric()
    ensures var a, b := [Pub(Some(1), [7], true)], [Pub(Some(1), [7, 8], true)];
            ValidPubs(a) && ValidPubs(b) && Verdict(a, b, 0, None) == None && Verdict(b, a, 0, None) == Some(MissingEvent)
  {
    assert multiset([7]) <= multiset([7, 8]);
    assert multiset([7, 8])[8] == 1 && multiset([7])[8] == 0;
  }

  /** The last batch is not checked for order: it may be earlier than the one before it. */
  lemma {:induction false} LastBatchMayGoBack()
    ensures var a := [Pub(Some(5), [1], false), Pub(Some(3), [2], true)];
            ValidPubs(a) && Verdict(a, a, 0, None) == None
  {
    var a := [Pub(Some(5), [1], false), Pub(Some(3), [2], true)];
    assert Verdict(a, a, 1, Some(5)) == None;
  }
}
