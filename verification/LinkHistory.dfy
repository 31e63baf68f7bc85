/**
 * First in, first out, and the minimum travel time of a link. A history replays a run and notes
 * which entry of the queue every vehicle in the buffer, and every vehicle that left, came from.
 */
module LinkHistory {
  import opened Basics
  import opened LinkSpec
  import opened LinkRuns

  /** An entry of the queue and the tick at which it was made. */
  datatype Entry = Entry(e: QEntry, at: Tick)

  /** A vehicle that left through the node; tag is its entry, or -1 if it started on this link. */
  datatype Departure = Departure(tag: int, veh: Vehicle, at: Tick)

  datatype History = History(
    s: LinkState,
    entered: seq<Entry>,
    taken: nat,
    lastStep: int,
    tags: seq<int>,
    left: seq<Departure>)

  function Entries(es: seq<Entry>): (r: seq<QEntry>)
    ensures |r| == |es| && forall i :: 0 <= i < |es| ==> r[i] == es[i].e
  {
    seq(|es|, i requires 0 <= i < |es| => es[i].e)
  }

  /** The entry numbers, counted from base, of the vehicles of q that travel on. */
  function ContinuingTags(q: seq<QEntry>, base: int): (r: seq<int>)
  {
    if q == [] then []
    else (if q[0].veh.WantsToArrive() then [] else [base]) + ContinuingTags(q[1..], base + 1)
  }

  function Untagged(vs: seq<Vehicle>): (r: seq<int>)
    ensures |r| == |vs| && forall i :: 0 <= i < |r| ==> r[i] == -1
  {
    seq(|vs|, i => -1)
  }

  function Record(h: History, a: LinkAction): (r: History)
    requires h.s.attr.tps > 0 && |h.tags| == |h.s.buffer|
    ensures r.s == Apply(h.s, a)
  {
    match a
    case Enter(v, now) =>
      h.(s := Apply(h.s, a),
         entered := h.entered + [Entry(QEntry(v, SatAdd(now, TravelTicks(h.s.attr, v))), now)])
    case Step(now) =>
      SimStepShape(h.s, now);
      var w, k := WaitingTaken(h.s, now), QueueTaken(h.s, now);
      h.(s := Apply(h.s, a), taken := h.taken + k,
         lastStep := if h.lastStep < now then now else h.lastStep,
         tags := h.tags + Untagged(Continuing(h.s.waiting[..w])) + ContinuingTags(h.s.q[..k], h.taken))
    case Leave(now) =>
      if h.s.buffer == [] then h
      else h.(s := Apply(h.s, a), tags := h.tags[1..],
              left := h.left + [Departure(h.tags[0], h.s.buffer[0], now)])
    case _ => h.(s := Apply(h.s, a))
  }

  // ------------------------------------------------------------------ the history invariant

  /** Entry numbers appear in strictly increasing order, all below bound. */
  ghost predicate Increasing(ts: seq<int>, bound: int)
  {
    && (forall i, j :: 0 <= i < j < |ts| && ts[i] >= 0 && ts[j] >= 0 ==> ts[i] < ts[j])
    && (forall i :: 0 <= i < |ts| ==> ts[i] < bound)
  }

  function Tags(ds: seq<Departure>): (r: seq<int>)
    ensures |r| == |ds| && forall i :: 0 <= i < |ds| ==> r[i] == ds[i].tag
  {
    seq(|ds|, i requires 0 <= i < |ds| => ds[i].tag)
  }

  ghost predicate EntriesMade(h: History)
  {
    && h.taken <= |h.entered|
    && h.s.q == Entries(h.entered[h.taken..])
    && (forall i :: 0 <= i < |h.entered| ==>
          h.entered[i].e.exit == SatAdd(h.entered[i].at, TravelTicks(h.s.attr, h.entered[i].e.veh)))
  }

  ghost predicate BufferTagged(h: History)
  {
    && |h.tags| == |h.s.buffer|
    && (forall i :: 0 <= i < |h.tags| && h.tags[i] >= 0 ==>
          && h.tags[i] < |h.entered|
          && h.s.buffer[i] == h.entered[h.tags[i]].e.veh
          && h.entered[h.tags[i]].e.exit <= h.lastStep)
  }

  ghost predicate DeparturesLate(h: History)
  {
    forall i :: 0 <= i < |h.left| && h.left[i].tag >= 0 ==>
      && h.left[i].tag < |h.entered|
      && h.left[i].veh == h.entered[h.left[i].tag].e.veh
      && h.left[i].at > h.entered[h.left[i].tag].e.exit
  }

  ghost predicate Inv(h: History)
  {
    && h.s.attr.tps > 0
    && EntriesMade(h)
    && BufferTagged(h)
    && Increasing(Tags(h.left) + h.tags, h.taken)
    && DeparturesLate(h)
  }

  /** The tags ts name, in increasing order, the entries of q that the vehicles vs come from. */
  ghost predicate TagsName(ts: seq<int>, vs: seq<Vehicle>, q: seq<QEntry>, base: int)
  {
    && |ts| == |vs|
    && (forall i :: 0 <= i < |ts| ==> base <= ts[i] < base + |q|)
    && (forall i :: 0 <= i < |ts| ==> vs[i] == q[ts[i] - base].veh)
    && (forall i, j :: 0 <= i < j < |ts| ==> ts[i] < ts[j])
  }

  lemma {:induction false} ContinuingTagsShape(q: seq<QEntry>, base: int)
    ensures TagsName(ContinuingTags(q, base), Continuing(Vehs(q)), q, base)
  {
    hide TagsName, ContinuingTags, Continuing, Vehicle.WantsToArrive;
    if q == [] {
      NoTags(q, base);
    } else {
      ContinuingTagsShape(q[1..], base + 1);
      FirstTag(q, base);
      TagsNameShift(ContinuingTags(q[1..], base + 1), Continuing(Vehs(q[1..])), q, base);
    }
  }

  lemma {:induction false} NoTags(q: seq<QEntry>, base: int)
    requires q == []
    ensures TagsName(ContinuingTags(q, base), Continuing(Vehs(q)), q, base)
  {
  }

  lemma {:induction false} FirstTag(q: seq<QEntry>, base: int)
    requires q != []
    ensures ContinuingTags(q, base) ==
            (if q[0].veh.WantsToArrive() then ContinuingTags(q[1..], base + 1) else [base] + ContinuingTags(q[1..], base + 1))
    ensures Continuing(Vehs(q)) == (if q[0].veh.WantsToArrive() then Continuing(Vehs(q[1..])) else [q[0].veh] + Continuing(Vehs(q[1..])))
  {
    hide Vehicle.WantsToArrive;
    assert Vehs(q)[1..] == Vehs(q[1..]);
    assert [] + ContinuingTags(q[1..], base + 1) == ContinuingTags(q[1..], base + 1);
  }

  lemma {:induction false} TagsNameShift(ts: seq<int>, vs: seq<Vehicle>, q: seq<QEntry>, base: int)
    requires q != [] && TagsName(ts, vs, q[1..], base + 1)
    ensures TagsName(ts, vs, q, base)
    ensures TagsName([base] + ts, [q[0].veh] + vs, q, base)
  {
    forall i | 0 <= i < |ts|
      ensures vs[i] == q[ts[i] - base].veh
    {
      assert q[1..][ts[i] - (base + 1)] == q[ts[i] - base];
    }
    var ts1, vs1 := [base] + ts, [q[0].veh] + vs;
    forall i | 0 <= i < |ts1|
      ensures base <= ts1[i] < base + |q| && vs1[i] == q[ts1[i] - base].veh
    {
      if i > 0 {
        assert ts1[i] == ts[i - 1] && vs1[i] == vs[i - 1];
      }
    }
    forall i, j | 0 <= i < j < |ts1|
      ensures ts1[i] < ts1[j]
    {
      assert ts1[j] == ts[j - 1];
    }
  }

  lemma {:induction false} IncreasingExtends(ts: seq<int>, bound: nat, untagged: seq<int>, more: seq<int>, k: nat)
    requires Increasing(ts, bound)
    requires forall i :: 0 <= i < |untagged| ==> untagged[i] == -1
    requires forall i :: 0 <= i < |more| ==> bound <= more[i] < bound + k
    requires forall i, j :: 0 <= i < j < |more| ==> more[i] < more[j]
    ensures Increasing(ts + untagged + more, bound + k)
  {
  }

  lemma {:induction false} StepKeepsEntries(h: History, now: Tick)
    requires Inv(h)
    ensures EntriesMade(Record(h, Step(now)))
  {
    SimStepShape(h.s, now);
    var k := QueueTaken(h.s, now);
    var r := Record(h, Step(now));
    assert r.entered[r.taken..] == h.entered[h.taken..][k..];
    assert r.s.q == Entries(r.entered[r.taken..]);
  }

  lemma {:induction false} StepTagsBuffer(h: History, now: Tick)
    requires Inv(h)
    ensures BufferTagged(Record(h, Step(now)))
  {
    SimStepShape(h.s, now);
    var w, k := WaitingTaken(h.s, now), QueueTaken(h.s, now);
    var r := Record(h, Step(now));
    var cont := Continuing(h.s.waiting[..w]);
    ContinuingTagsShape(h.s.q[..k], h.taken);
    NewTagsName(h, k, now);
    BufferExtends(h, r, Untagged(cont), cont,
                  ContinuingTags(h.s.q[..k], h.taken), Continuing(Vehs(h.s.q[..k])));
  }

  /** The entries that a step takes from the queue have reached their exit ticks. */
  lemma {:induction false} NewTagsName(h: History, k: nat, now: Tick)
    requires Inv(h) && k <= |h.s.q| && forall i :: 0 <= i < k ==> h.s.q[i].exit <= now
    ensures var ts, vs := ContinuingTags(h.s.q[..k], h.taken), Continuing(Vehs(h.s.q[..k]));
            && |ts| == |vs|
            && forall i :: 0 <= i < |ts| ==>
                 && 0 <= ts[i] < |h.entered|
                 && vs[i] == h.entered[ts[i]].e.veh && h.entered[ts[i]].e.exit <= now
  {
    ContinuingTagsShape(h.s.q[..k], h.taken);
    var ts, vs := ContinuingTags(h.s.q[..k], h.taken), Continuing(Vehs(h.s.q[..k]));
    forall i | 0 <= i < |ts|
      ensures 0 <= ts[i] < |h.entered| && vs[i] == h.entered[ts[i]].e.veh && h.entered[ts[i]].e.exit <= now
    {
      var j := ts[i] - h.taken;
      assert h.s.q[..k][j] == h.s.q[j] && h.s.q[j] == h.entered[h.taken..][j].e;
    }
  }

  lemma {:induction false} BufferExtends(h: History, r: History, un: seq<int>, vs0: seq<Vehicle>, ts: seq<int>, vs1: seq<Vehicle>)
    requires BufferTagged(h) && r.entered == h.entered && h.lastStep <= r.lastStep
    requires |un| == |vs0| && forall i :: 0 <= i < |un| ==> un[i] == -1
    requires |ts| == |vs1|
    requires forall i :: 0 <= i < |ts| ==>
               0 <= ts[i] < |h.entered| && vs1[i] == h.entered[ts[i]].e.veh && h.entered[ts[i]].e.exit <= r.lastStep
    requires r.tags == h.tags + un + ts && r.s.buffer == h.s.buffer + vs0 + vs1
    ensures BufferTagged(r)
  {
    forall i | 0 <= i < |r.tags| && r.tags[i] >= 0
      ensures && r.tags[i] < |r.entered|
              && r.s.buffer[i] == r.entered[r.tags[i]].e.veh
              && r.entered[r.tags[i]].e.exit <= r.lastStep
    {
      if i < |h.tags| {
        assert r.tags[i] == h.tags[i] && r.s.buffer[i] == h.s.buffer[i];
      } else {
        var j := i - |h.tags| - |un|;
        assert j >= 0 ==> r.tags[i] == ts[j] && r.s.buffer[i] == vs1[j];
      }
    }
  }

  lemma {:induction false} StepKeepsInv(h: History, now: Tick)
    requires Inv(h)
    ensures Inv(Record(h, Step(now)))
  {
    hide EntriesMade, BufferTagged, SimStep, ContinuingTags, Continuing, Untagged, Increasing, Arriving, Pce;
    StepKeepsEntries(h, now);
    StepTagsBuffer(h, now);
    SimStepShape(h.s, now);
    var w, k := WaitingTaken(h.s, now), QueueTaken(h.s, now);
    ContinuingTagsShape(h.s.q[..k], h.taken);
    var un, more := Untagged(Continuing(h.s.waiting[..w])), ContinuingTags(h.s.q[..k], h.taken);
    IncreasingExtends(Tags(h.left) + h.tags, h.taken, un, more, k);
    assert Tags(h.left) + h.tags + un + more == Tags(h.left) + (h.tags + un + more);
  }

  lemma {:induction false} LeaveKeepsInv(h: History, now: Tick)
    requires Inv(h) && h.lastStep < now
    ensures Inv(Record(h, Leave(now)))
  {
    var r := Record(h, Leave(now));
    if h.s.buffer != [] {
      assert Tags(r.left) + r.tags == Tags(h.left) + h.tags;
    }
  }

  lemma {:induction false} RecordKeepsInv(h: History, a: LinkAction)
    requires Inv(h) && (a.Leave? ==> h.lastStep < a.now)
    ensures Inv(Record(h, a))
  {
    match a
    case Step(now) => StepKeepsInv(h, now);
    case Leave(now) => LeaveKeepsInv(h, now);
    case Enter(v, now) =>
      var r := Record(h, a);
      assert r.entered[r.taken..] == h.entered[h.taken..] + [r.entered[|h.entered|]];
      assert Entries(r.entered[r.taken..]) == Entries(h.entered[h.taken..]) + [r.entered[|h.entered|].e];
    case _ =>
  }

  // ------------------------------------------------------------------ all runs

  /** Nodes act before links: what leaves at a tick was put into the buffer at an earlier one. */
  ghost predicate NodesBeforeLinks(acts: seq<LinkAction>)
  {
    forall i, j :: 0 <= i < j < |acts| && acts[i].Step? && acts[j].Leave? ==> acts[i].now < acts[j].now
  }

  ghost predicate StepsUpTo(acts: seq<LinkAction>, lastStep: int)
  {
    && (forall i :: 0 <= i < |acts| && acts[i].Step? ==> acts[i].now <= lastStep)
    && (lastStep == -1 || exists i :: 0 <= i < |acts| && acts[i].Step? && acts[i].now == lastStep)
  }

  predicate Empty(s: LinkState)
  {
    s.q == [] && s.buffer == [] && s.waiting == []
  }

  function Replay(s: LinkState, acts: seq<LinkAction>): (h: History)
    requires s.attr.tps > 0 && Empty(s)
    ensures h.s == Run(s, acts) && |h.tags| == |h.s.buffer|
  {
    if acts == [] then History(s, [], 0, -1, [], [])
    else
      var mid := Replay(s, acts[..|acts| - 1]);
      var a := acts[|acts| - 1];
      TagsMatchBuffer(mid, a);
      Record(mid, a)
  }

  lemma {:induction false} TagsMatchBuffer(h: History, a: LinkAction)
    requires h.s.attr.tps > 0 && |h.tags| == |h.s.buffer|
    ensures |Record(h, a).tags| == |Record(h, a).s.buffer|
  {
    if a.Step? {
      SimStepShape(h.s, a.now);
      ContinuingTagsShape(h.s.q[..QueueTaken(h.s, a.now)], h.taken);
    }
  }

  lemma {:induction false} ReplayInv(s: LinkState, acts: seq<LinkAction>)
    requires s.attr.tps > 0 && Empty(s) && NodesBeforeLinks(acts)
    ensures Inv(Replay(s, acts))
    ensures StepsUpTo(acts, Replay(s, acts).lastStep)
  {
    if acts == [] {
      assert Tags([]) + [] == [];
    } else {
      hide NodesBeforeLinks, StepsUpTo, Inv, Record, Empty;
      var n := |acts| - 1;
      var front, a := acts[..n], acts[n];
      assert acts == front + [a];
      LeavesLater(front, a);
      ReplayInv(s, front);
      var mid := Replay(s, front);
      LeaveIsLater(front, a, mid.lastStep);
      LastStepRecorded(mid, a);
      RecordKeepsInv(mid, a);
      StepsUpToExtends(front, a, mid.lastStep, Record(mid, a).lastStep);
    }
  }

  lemma {:induction false} LeavesLater(front: seq<LinkAction>, a: LinkAction)
    requires NodesBeforeLinks(front + [a])
    ensures NodesBeforeLinks(front)
    ensures a.Leave? ==> forall i :: 0 <= i < |front| && front[i].Step? ==> front[i].now < a.now
  {
    var acts := front + [a];
    assert acts[|front|] == a;
    assert forall i :: 0 <= i < |front| ==> acts[i] == front[i];
  }

  lemma {:induction false} LeaveIsLater(front: seq<LinkAction>, a: LinkAction, lastStep: int)
    requires StepsUpTo(front, lastStep)
    requires a.Leave? ==> forall i :: 0 <= i < |front| && front[i].Step? ==> front[i].now < a.now
    ensures a.Leave? ==> lastStep < a.now
  {
  }

  lemma {:induction false} LastStepRecorded(h: History, a: LinkAction)
    requires h.s.attr.tps > 0 && |h.tags| == |h.s.buffer|
    ensures Record(h, a).lastStep == if a.Step? && h.lastStep < a.now then a.now else h.lastStep
  {
  }

  lemma {:induction false} StepsUpToExtends(front: seq<LinkAction>, a: LinkAction, before: int, after: int)
    requires StepsUpTo(front, before)
    requires after == if a.Step? && before < a.now then a.now else before
    ensures StepsUpTo(front + [a], after)
  {
    var acts := front + [a];
    assert acts[|front|] == a;
    if after != -1 {
      if after == before {
        var i :| 0 <= i < |front| && front[i].Step? && front[i].now == before;
        assert acts[i] == front[i];
      }
    }
  }

  /**
   * Between its entry and its departure a vehicle had more time than it needs for the length of the
   * link, at its own speed and at the free speed; without speed it does not get there at all.
   */
  ghost predicate HadTheTime(attr: LinkAttr, v: Vehicle, entered: Tick, left: Tick)
  {
    && (attr.length >= 0.0 && attr.freeSpeed > 0.0 && v.maxV > 0.0 && left <= U64_MAX ==>
          && left > entered
          && (left - entered) as real * v.maxV > attr.length * attr.tps as real
          && (left - entered) as real * attr.freeSpeed > attr.length * attr.tps as real)
    && (attr.length > 0.0 && attr.freeSpeed >= 0.0 && v.maxV >= 0.0 && (attr.freeSpeed == 0.0 || v.maxV == 0.0) ==> left > U64_MAX)
  }

  lemma {:induction false} LaterHadTheTime(attr: LinkAttr, v: Vehicle, entered: Tick, left: Tick)
    requires left >= SatAdd(entered, TravelTicks(attr, v)) + 1
    ensures HadTheTime(attr, v, entered, left)
  {
    hide TravelTicks;
    if attr.freeSpeed >= 0.0 && v.maxV >= 0.0 && (attr.freeSpeed == 0.0 || v.maxV == 0.0) {
      WithoutSpeed(attr, v);
    } else if attr.length >= 0.0 && attr.freeSpeed > 0.0 && v.maxV > 0.0 && left <= U64_MAX {
      TravelTicksAre(attr, v);
      var k := TravelTicks(attr, v);
      assert left - entered >= k + 1 && k < U64_MAX;
      var t := (left - entered) as real;
      assert t >= k as real + 1.0;
      FurtherInMoreTime(k as real + 1.0, t, v.maxV, attr.length * attr.tps as real);
      FurtherInMoreTime(k as real + 1.0, t, attr.freeSpeed, attr.length * attr.tps as real);
    }
  }

  lemma {:induction false} FurtherInMoreTime(k: real, t: real, speed: real, way: real)
    requires k <= t && speed > 0.0 && k * speed > way
    ensures t * speed > way
  {
    InMoreTime(k, t, speed);
  }

  /**
   * In every run of a link that starts empty, the vehicles that entered its queue leave through
   * the node in the order in which they entered, and none leaves before its entry tick plus its
   * travel ticks plus one: none is faster than its own speed or the free speed allows.
   */
  lemma {:induction false} FifoAndMinimumTravelTime(s: LinkState, acts: seq<LinkAction>)
    requires s.attr.tps > 0 && Empty(s) && NodesBeforeLinks(acts)
    ensures var h := Replay(s, acts);
            && (forall i, j :: 0 <= i < j < |h.left| && h.left[i].tag >= 0 && h.left[j].tag >= 0 ==>
                  h.left[i].tag < h.left[j].tag)
            && (forall i :: 0 <= i < |h.left| && h.left[i].tag >= 0 ==>
                  && h.left[i].tag < |h.entered|
                  && h.left[i].veh == h.entered[h.left[i].tag].e.veh
                  && h.left[i].at >= SatAdd(h.entered[h.left[i].tag].at, TravelTicks(s.attr, h.left[i].veh)) + 1
                  && HadTheTime(s.attr, h.left[i].veh, h.entered[h.left[i].tag].at, h.left[i].at))
  {
    hide TravelTicks, HadTheTime;
    ReplayInv(s, acts);
    var h := Replay(s, acts);
    var all := Tags(h.left) + h.tags;
    forall i, j | 0 <= i < j < |h.left| && h.left[i].tag >= 0 && h.left[j].tag >= 0
      ensures h.left[i].tag < h.left[j].tag
    {
      assert all[i] == h.left[i].tag && all[j] == h.left[j].tag;
    }
    forall i | 0 <= i < |h.left| && h.left[i].tag >= 0
      ensures h.left[i].at >= SatAdd(h.entered[h.left[i].tag].at, TravelTicks(s.attr, h.left[i].veh)) + 1
      ensures HadTheTime(s.attr, h.left[i].veh, h.entered[h.left[i].tag].at, h.left[i].at)
    {
      LaterHadTheTime(s.attr, h.left[i].veh, h.entered[h.left[i].tag].at, h.left[i].at);
    }
  }
}
