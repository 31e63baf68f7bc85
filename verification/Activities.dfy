/**
 * The engine that keeps agents while they are at activities. An agent sleeps until its wake-up
 * time, may then be awake for a while, and is released once the clock reaches the activity's end.
 */
module Activities {
  import opened Basics
  import opened LinkSpec
  import opened Clock
  import opened TimeQueues

  /** When an activity ends: at a given time, after a given time, or never. */
  datatype Activity = Activity(endTime: Option<nat>, maxDur: Option<nat>)

  function EndOf(act: Activity, begin: nat): (t: nat)
  {
    if act.endTime.Some? then act.endTime.value
    else if act.maxDur.Some? then begin + act.maxDur.value
    else U64_MAX
  }

  /** An agent at an activity: its end, its preplanning horizon in seconds, and whether a leg follows. */
  datatype Agent = Agent(id: nat, end: nat, horizon: Option<nat>, hasNextLeg: bool)

  /** An agent that arrives at its next activity. */
  datatype Visitor = Visitor(id: nat, act: Activity, horizon: Option<nat>, hasNextLeg: bool)

  /** The agents at their activities, which begin now. */
  function Settled(vs: seq<Visitor>, now: nat): (r: seq<Agent>)
    ensures |r| == |vs|
    ensures forall i :: 0 <= i < |vs| ==> r[i] == Agent(vs[i].id, EndOf(vs[i].act, now), vs[i].horizon, vs[i].hasNextLeg)
  {
    seq(|vs|, i requires 0 <= i < |vs| => Agent(vs[i].id, EndOf(vs[i].act, now), vs[i].horizon, vs[i].hasNextLeg))
  }

  function Wakeup(a: Agent): (t: nat)
    ensures t <= a.end
  {
    if !a.hasNextLeg || a.horizon.None? then a.end
    else if a.horizon.value * NANOS > a.end then 0
    else a.end - a.horizon.value * NANOS
  }

  class ActivityEngine {
    const tps: nat
    const asleep: TimeQueue<Agent>
    var awake: seq<Agent>

    ghost predicate Valid()
      reads this, asleep
    {
      tps > 0 && forall i :: 0 <= i < |asleep.q| ==> asleep.q[i].endTime == Wakeup(asleep.q[i].value)
    }

    /** Everyone in the engine's hands. */
    ghost function Held(): (r: multiset<Agent>)
      reads this, asleep
    {
      multiset(Values(asleep.q)) + multiset(awake)
    }

    /**
     * The agents of the population are asleep at their first activities. An agent fixes the end of
     * its first activity when it is made, counted from time 0, whenever the simulation starts.
     */
    constructor (tps: nat, population: seq<Visitor>)
      requires tps > 0
      requires forall i :: 0 <= i < |population| ==> EndOf(population[i].act, 0) <= U64_MAX
      ensures Valid() && this.tps == tps && fresh(asleep) && awake == []
      ensures Held() == multiset(Settled(population, 0))
    {
      this.tps := tps;
      asleep := new TimeQueue();
      awake := [];
      new;
      Fill(Settled(population, 0));
    }

    /** The agents fall asleep one after the other. */
    method Fill(agents: seq<Agent>)
      requires Valid()
      modifies asleep
      ensures Valid() && Held() == old(Held()) + multiset(agents) && awake == old(awake)
    {
      for i := 0 to |agents|
        invariant Valid() && Held() == old(Held()) + multiset(agents[..i])
      {
        assert agents[..i + 1] == agents[..i] + [agents[i]];
        ReceiveAgent(agents[i]);
      }
      assert agents[..|agents|] == agents;
    }

    method ReceiveAgent(a: Agent)
      requires Valid()
      modifies asleep
      ensures Valid() && Held() == old(Held()) + multiset{a} && awake == old(awake)
    {
      asleep.Add(a, Wakeup(a));
      assert Values(asleep.q) == old(Values(asleep.q)) + [a];
    }

    /** Wakes the agents whose wake-up time has come and returns those whose activity is already over. */
    method WakeUp(now: nat) returns (ended: seq<Agent>, ghost woke: multiset<Agent>)
      requires Valid()
      modifies this, asleep
      ensures Valid() && Held() + multiset(ended) == old(Held())
      ensures WokenUp(now, old(multiset(Values(asleep.q))), multiset(Values(asleep.q)), woke)
      ensures multiset(awake) + multiset(ended) == old(multiset(awake)) + woke
      ensures forall a :: a in ended ==> a.end <= now
      ensures forall i :: 0 <= i < |asleep.q| ==> Wakeup(asleep.q[i].value) > now && asleep.q[i].value.end > now
    {
      var woken;
      ghost var popped;
      woken, popped := asleep.Pop(now);
      ValuesSplit(old(asleep.q), asleep.q, popped);
      StillWakeups(old(asleep.q), asleep.q, popped);
      WokenExactly(now, old(asleep.q), asleep.q, popped);
      woke := multiset(woken);
      ended := KeepAwake(woken, now);
      Regroup(multiset(Values(asleep.q)), multiset(awake), multiset(ended), old(multiset(awake)), multiset(woken));
    }

    /** Of the agents that woke up, those whose activity goes on stay awake; the others are returned. */
    method KeepAwake(woken: seq<Agent>, now: nat) returns (ended: seq<Agent>)
      modifies this`awake
      ensures multiset(awake) + multiset(ended) == old(multiset(awake)) + multiset(woken)
      ensures forall a :: a in ended ==> a.end <= now
    {
      ended := [];
      for i := 0 to |woken|
        invariant multiset(awake) + multiset(ended) == old(multiset(awake)) + multiset(woken[..i])
        invariant forall a :: a in ended ==> a.end <= now
      {
        assert woken[..i + 1] == woken[..i] + [woken[i]];
        AddOne(awake, ended, old(multiset(awake)), woken[..i], woken[i]);
        if woken[i].end <= now {
          ended := ended + [woken[i]];
        } else {
          awake := awake + [woken[i]];
        }
      }
      assert woken[..|woken|] == woken;
    }

    /** Removes the awake agents whose activity is over; the last one takes the place of a removed one. */
    method End(now: nat) returns (agents: seq<Agent>)
      modifies this`awake
      ensures multiset(awake) + multiset(agents) == old(multiset(awake))
      ensures forall a :: a in agents ==> a.end <= now
      ensures forall a :: a in awake ==> a.end > now
    {
      agents := [];
      var i := 0;
      while i < |awake|
        invariant 0 <= i <= |awake|
        invariant multiset(awake) + multiset(agents) == old(multiset(awake))
        invariant forall a :: a in agents ==> a.end <= now
        invariant forall j :: 0 <= j < i ==> awake[j].end > now
        decreases |awake| - i
      {
        if awake[i].end <= now {
          SwapRemoved(awake, i);
          agents := agents + [awake[i]];
          awake := SwapRemove(awake, i);
        } else {
          i := i + 1;
        }
      }
    }

    /**
     * One tick. The agents that arrive start their activity now. Released are exactly those whose
     * activity ends at or before the time of this tick; everyone else stays.
     */
    method DoStep(tick: Tick, arriving: seq<Visitor>) returns (leaving: seq<Agent>)
      requires Valid() && TickToTime(tps, tick).Some?
      requires forall i :: 0 <= i < |arriving| ==> EndOf(arriving[i].act, TickNanos(tps, tick)) <= U64_MAX
      modifies this, asleep
      ensures Valid()
      ensures Released(tps, tick, old(Held()) + multiset(Settled(arriving, TickNanos(tps, tick))), multiset(leaving), Held())
      ensures forall a :: a in Values(asleep.q) ==> Wakeup(a) > TickNanos(tps, tick)
      ensures forall a :: a in awake ==> Wakeup(a) <= TickNanos(tps, tick) || a in old(awake)
    {
      var now := TickToTime(tps, tick).value;
      var agents := Settled(arriving, now);
      Fill(agents);
      ghost var all := Held();
      leaving := Leave(now);
      AllReleased(tps, tick, all, leaving, asleep.q, awake);
    }

    method Leave(now: nat) returns (leaving: seq<Agent>)
      requires Valid()
      modifies this, asleep
      ensures Valid() && Held() + multiset(leaving) == old(Held())
      ensures forall a :: a in leaving ==> a.end <= now
      ensures forall a :: a in awake ==> a.end > now
      ensures forall i :: 0 <= i < |asleep.q| ==> asleep.q[i].value.end > now
      ensures forall a :: a in Values(asleep.q) ==> Wakeup(a) > now
      ensures forall a :: a in awake ==> Wakeup(a) <= now || a in old(awake)
    {
      var woken;
      ghost var woke;
      woken, woke := WakeUp(now);
      ghost var up := awake;
      var others := End(now);
      WereWoken(now, old(multiset(Values(asleep.q))), multiset(Values(asleep.q)), woke, old(awake), up, woken, awake, others);
      leaving := woken + others;
    }

    method Drain() returns (agents: seq<Agent>)
      modifies this, asleep
      ensures multiset(agents) == old(Held()) && Held() == multiset{}
    {
      var sleeping := asleep.Drain();
      agents := awake + sleeping;
      awake := [];
    }
  }

  /** Of the sleepers, exactly those have woken up whose wake-up time has come. */
  ghost predicate WokenUp(now: nat, sleepers: multiset<Agent>, asleep: multiset<Agent>, woke: multiset<Agent>)
  {
    forall a: Agent :: woke[a] == (if Wakeup(a) <= now then sleepers[a] else 0)
                    && asleep[a] == (if Wakeup(a) <= now then 0 else sleepers[a])
  }

  lemma {:induction false} WokenExactly(now: nat, all: seq<Entry<Agent>>, rest: seq<Entry<Agent>>, popped: seq<Entry<Agent>>)
    requires multiset(all) == multiset(rest) + multiset(popped)
    requires forall i :: 0 <= i < |all| ==> all[i].endTime == Wakeup(all[i].value)
    requires (forall e :: e in popped ==> e.endTime <= now) && forall e :: e in rest ==> e.endTime > now
    ensures WokenUp(now, multiset(Values(all)), multiset(Values(rest)), multiset(Values(popped)))
  {
    hide Wakeup;
    ValuesSplit(all, rest, popped);
    StillWakeups(all, rest, popped);
    assert multiset(all) == multiset(popped) + multiset(rest);
    StillWakeups(all, popped, rest);
    forall a: Agent
      ensures Wakeup(a) <= now ==> a !in Values(rest)
      ensures Wakeup(a) > now ==> a !in Values(popped)
    {
      if a in Values(rest) {
        var i :| 0 <= i < |rest| && Values(rest)[i] == a;
        assert rest[i] in rest;
      }
      if a in Values(popped) {
        var i :| 0 <= i < |popped| && Values(popped)[i] == a;
        assert popped[i] in popped;
      }
    }
  }

  lemma {:induction false} WereWoken(now: nat, sleepers: multiset<Agent>, asleep: multiset<Agent>, woke: multiset<Agent>,
                                     was: seq<Agent>, up: seq<Agent>, ended: seq<Agent>, awake: seq<Agent>, others: seq<Agent>)
    requires WokenUp(now, sleepers, asleep, woke)
    requires multiset(up) + multiset(ended) == multiset(was) + woke && multiset(awake) + multiset(others) == multiset(up)
    ensures forall a :: a in asleep ==> Wakeup(a) > now
    ensures forall a :: a in awake ==> Wakeup(a) <= now || a in was
  {
    hide Wakeup;
    forall a | a in awake
      ensures Wakeup(a) <= now || a in was
    {
      assert a in multiset(awake) && a in multiset(up) && (multiset(was) + woke)[a] > 0;
    }
  }

  /** An agent is awake from the preplanning horizon before the end of its activity on, if a leg follows. */
  lemma {:induction false} WakesAhead(a: Agent, now: nat)
    ensures Wakeup(a) <= now <==>
            a.end <= now || (a.hasNextLeg && a.horizon.Some? && a.end <= now + a.horizon.value * 1_000_000_000)
  {
  }

  lemma {:induction false} Regroup(q: multiset<Agent>, awake: multiset<Agent>, ended: multiset<Agent>, was: multiset<Agent>, woken: multiset<Agent>)
    requires awake + ended == was + woken
    ensures q + awake + ended == q + woken + was
  {
    assert q + awake + ended == q + (awake + ended);
  }

  lemma {:induction false} AddOne(awake: seq<Agent>, ended: seq<Agent>, was: multiset<Agent>, woken: seq<Agent>, a: Agent)
    requires multiset(awake) + multiset(ended) == was + multiset(woken)
    ensures multiset(awake + [a]) + multiset(ended) == was + multiset(woken + [a])
    ensures multiset(awake) + multiset(ended + [a]) == was + multiset(woken + [a])
  {
    assert was + multiset(woken + [a]) == multiset(awake) + multiset(ended) + multiset{a};
  }

  /** The tick by which an agent's activity is over. */
  function DueTick(tps: nat, a: Agent): (k: nat)
  {
    CeilTicks(tps, a.end)
  }

  /** Of the agents all, exactly those are released at tick k whose tick has come, and the others are kept. */
  ghost predicate Released(tps: nat, k: Tick, all: multiset<Agent>, released: multiset<Agent>, kept: multiset<Agent>)
  {
    forall a: Agent :: released[a] == (if DueTick(tps, a) <= k then all[a] else 0)
                    && kept[a] == (if DueTick(tps, a) <= k then 0 else all[a])
  }

  lemma {:induction false} AllReleased(tps: nat, tick: Tick, all: multiset<Agent>, leaving: seq<Agent>,
                                       asleep: seq<Entry<Agent>>, awake: seq<Agent>)
    requires tps > 0
    requires all == multiset(Values(asleep)) + multiset(awake) + multiset(leaving)
    requires forall a :: a in leaving ==> a.end <= TickNanos(tps, tick)
    requires forall a :: a in awake ==> a.end > TickNanos(tps, tick)
    requires forall i :: 0 <= i < |asleep| ==> asleep[i].value.end > TickNanos(tps, tick)
    ensures Released(tps, tick, all, multiset(leaving), multiset(Values(asleep)) + multiset(awake))
  {
    hide TickNanos, CeilTicks;
    forall a: Agent
      ensures multiset(leaving)[a] == if DueTick(tps, a) <= tick then all[a] else 0
      ensures (multiset(Values(asleep)) + multiset(awake))[a] == if DueTick(tps, a) <= tick then 0 else all[a]
    {
      Adjunction(tps, a.end, tick);
      if a.end <= TickNanos(tps, tick) {
        assert a !in awake && a !in Values(asleep);
      } else {
        assert a !in leaving;
      }
    }
  }

  /** The sequence without element i; the last element takes its place. */
  function SwapRemove(s: seq<Agent>, i: nat): (r: seq<Agent>)
    requires i < |s|
    ensures |r| == |s| - 1 && forall j :: 0 <= j < |r| ==> r[j] == if j == i then s[|s| - 1] else s[j]
  {
    s[i := s[|s| - 1]][..|s| - 1]
  }

  lemma {:induction false} SwapRemoved(s: seq<Agent>, i: nat)
    requires i < |s|
    ensures multiset(s) == multiset(SwapRemove(s, i)) + multiset{s[i]}
  {
    var n := |s| - 1;
    var t := s[i := s[n]];
    assert t == t[..n] + [s[n]];
    assert multiset(t) == multiset(t[..n]) + multiset{s[n]};
    assert multiset(t) == multiset(s) - multiset{s[i]} + multiset{s[n]};
    assert multiset(s)[s[i]] >= 1;
  }

  /** What is left in the queue, and what was taken out, was in it before. */
  lemma {:induction false} StillWakeups(all: seq<Entry<Agent>>, rest: seq<Entry<Agent>>, popped: seq<Entry<Agent>>)
    requires multiset(all) == multiset(rest) + multiset(popped)
    requires forall i :: 0 <= i < |all| ==> all[i].endTime == Wakeup(all[i].value)
    ensures forall i :: 0 <= i < |rest| ==> rest[i].endTime == Wakeup(rest[i].value)
  {
    forall i | 0 <= i < |rest|
      ensures rest[i].endTime == Wakeup(rest[i].value)
    {
      assert rest[i] in multiset(all);
      assert rest[i] in all;
    }
  }

  // ------------------------------------------------------------------ whole runs

  /** A run of the engine from tick start on: who arrives, who is released, and who is held after each step. */
  ghost predicate Run(tps: nat, start: Tick, arriving: seq<multiset<Agent>>, released: seq<multiset<Agent>>, held: seq<multiset<Agent>>)
  {
    && |held| == |arriving| + 1 && |released| == |arriving|
    && forall j :: 0 <= j < |arriving| ==> Released(tps, start + j, held[j] + arriving[j], released[j], held[j + 1])
  }

  /** The step, counted from start, at which agent a has to leave if it arrives at step i. */
  function LeavingStep(tps: nat, start: Tick, a: Agent, i: nat): (j: nat)
  {
    if DueTick(tps, a) <= start + i then i else DueTick(tps, a) - start
  }

  /** Who comes into the hands of the engine at step k: those who arrive, and at the start the population. */
  ghost function Coming(arriving: seq<multiset<Agent>>, held: seq<multiset<Agent>>, k: nat): (r: multiset<Agent>)
    requires k < |arriving| < |held|
  {
    if k == 0 then held[0] + arriving[0] else arriving[k]
  }

  /**
   * Exact departures: an agent that is there from the start or arrives at step i leaves exactly once, at the first step from
   * then on whose clock time reaches the end of its activity, and is held until then and not longer.
   */
  lemma {:induction false} LeavesExactlyOnce(tps: nat, start: Tick, arriving: seq<multiset<Agent>>, released: seq<multiset<Agent>>,
                                             held: seq<multiset<Agent>>, a: Agent, i: nat, j: nat)
    requires Run(tps, start, arriving, released, held) && i < |arriving| && j < |arriving|
    requires forall k :: 0 <= k < |arriving| ==> Coming(arriving, held, k)[a] == if k == i then 1 else 0
    ensures released[j][a] == if j == LeavingStep(tps, start, a, i) then 1 else 0
    ensures held[j + 1][a] == if i <= j < LeavingStep(tps, start, a, i) then 1 else 0
  {
    hide DueTick;
    if j > 0 {
      LeavesExactlyOnce(tps, start, arriving, released, held, a, i, j - 1);
    }
    assert Released(tps, start + j, held[j] + arriving[j], released[j], held[j + 1]);
    assert (held[j] + arriving[j])[a] == held[j][a] + arriving[j][a];
    assert Coming(arriving, held, j)[a] == if j == i then 1 else 0;
  }

  /** The activity is over: its end time has come, or else its duration has passed, or else the clock is at its end. */
  predicate Over(act: Activity, begin: nat, now: nat)
  {
    match act.endTime
    case Some(t) => t <= now
    case None => match act.maxDur
      case Some(d) => now - begin >= d
      case None => now >= U64_MAX
  }

  /** A visitor that comes at step i and begins its activity then is there until the activity is over, and then leaves. */
  lemma {:induction false} StaysUntilOver(tps: nat, start: Tick, arriving: seq<multiset<Agent>>, released: seq<multiset<Agent>>,
                                          held: seq<multiset<Agent>>, v: Visitor, begin: nat, i: nat, j: nat)
    requires tps > 0 && Run(tps, start, arriving, released, held) && i < |arriving| && j < |arriving|
    requires forall k :: 0 <= k < |arriving| ==> Coming(arriving, held, k)[Settled([v], begin)[0]] == if k == i then 1 else 0
    ensures var a := Settled([v], begin)[0];
            && held[j + 1][a] == (if i <= j && !Over(v.act, begin, TickNanos(tps, start + j)) then 1 else 0)
            && (released[j][a] == 1 <==>
                i <= j && Over(v.act, begin, TickNanos(tps, start + j)) && (i < j ==> !Over(v.act, begin, TickNanos(tps, start + j - 1))))
  {
    hide CeilTicks, TickNanos, Run;
    var a := Settled([v], begin)[0];
    LeavesExactlyOnce(tps, start, arriving, released, held, a, i, j);
    Adjunction(tps, a.end, start + j);
    Adjunction(tps, a.end, start + i);
    if i < j {
      Adjunction(tps, a.end, start + j - 1);
    }
  }

  /** No one is kept beyond the end of the activity. */
  lemma {:induction false} NoneOverdue(tps: nat, start: Tick, arriving: seq<multiset<Agent>>, released: seq<multiset<Agent>>,
                                       held: seq<multiset<Agent>>, j: nat, a: Agent)
    requires tps > 0 && Run(tps, start, arriving, released, held) && j < |arriving| && a in held[j + 1]
    ensures a.end > TickNanos(tps, start + j)
  {
    assert Released(tps, start + j, held[j] + arriving[j], released[j], held[j + 1]);
    Adjunction(tps, a.end, start + j);
  }

  /** No agent is lost or doubled: whoever came is held or was released. */
  lemma {:induction false} AgentsConserved(tps: nat, start: Tick, arriving: seq<multiset<Agent>>, released: seq<multiset<Agent>>,
                                           held: seq<multiset<Agent>>, j: nat)
    requires Run(tps, start, arriving, released, held) && j < |arriving|
    ensures held[j] + arriving[j] == held[j + 1] + released[j]
  {
    assert Released(tps, start + j, held[j] + arriving[j], released[j], held[j + 1]);
    hide DueTick;
    forall a: Agent
      ensures (held[j] + arriving[j])[a] == (held[j + 1] + released[j])[a]
    {
    }
  }
}
