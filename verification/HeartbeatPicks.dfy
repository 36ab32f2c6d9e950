/** Which task the heartbeat hands out, in the terms a user sees: enabled flags, intervals, deadlines and weights. */
module HeartbeatPicks {
  import opened Prelude
  import opened Heartbeat
  import opened HeartbeatRuns

  // ---------------------------------------------------------------- weights

  /** The weight a task is given, at least one. */
  function GivenWeight(t: Task): int {
    if t.weight > 1 then t.weight else 1
  }

  /** The deadline is at most so many days away. */
  predicate DueWithin(t: Task, days: real, now: real)
    requires t.deadline.Some?
  {
    t.deadline.value <= now + days * 86400.0
  }

  /** The steps by which a nearer deadline adds to the weight. */
  ghost predicate IsExtra(t: Task, extra: int, now: real)
    requires t.deadline.Some?
  {
    && extra in {1, 2, 4, 7, 10, 16, 24, 100}
    && (extra >= 100 <==> DueWithin(t, 0.0, now))
    && (extra >= 24 <==> DueWithin(t, 3.0, now))
    && (extra >= 16 <==> DueWithin(t, 7.0, now))
    && (extra >= 10 <==> DueWithin(t, 14.0, now))
    && (extra >= 7 <==> DueWithin(t, 30.0, now))
    && (extra >= 4 <==> DueWithin(t, 60.0, now))
    && (extra >= 2 <==> DueWithin(t, 120.0, now))
  }

  lemma DaysAway(t: Task, days: real, now: real)
    requires t.deadline.Some?
    ensures (t.deadline.value - now) / SECONDS_PER_DAY <= days <==> DueWithin(t, days, now)
  {}

  /** Without a deadline the effective weight is the weight given; a deadline adds the more the nearer it is. */
  lemma WeightExactly(t: Task, now: real)
    ensures t.deadline.None? ==> EffectiveWeight(t, now) == GivenWeight(t)
    ensures t.deadline.Some? ==> IsExtra(t, EffectiveWeight(t, now) - GivenWeight(t), now)
  {
    if t.deadline.Some? {
      DaysAway(t, 3.0, now);
      DaysAway(t, 7.0, now);
      DaysAway(t, 14.0, now);
      DaysAway(t, 30.0, now);
      DaysAway(t, 60.0, now);
      DaysAway(t, 120.0, now);
    }
  }

  /** Of two tasks of the same weight, the one with the nearer deadline, or with one at all, weighs at least as much. */
  ghost predicate NoLessUrgent(a: Task, b: Task) {
    GivenWeight(a) == GivenWeight(b) && (b.deadline.Some? ==> a.deadline.Some? && a.deadline.value <= b.deadline.value)
  }

  lemma NearerWeighsMore(a: Task, b: Task, now: real)
    requires NoLessUrgent(a, b)
    ensures EffectiveWeight(a, now) >= EffectiveWeight(b, now)
  {
    WeightExactly(a, now);
    WeightExactly(b, now);
  }

  /**
   So in one turn of the ring, while nothing changes, it is triggered at least as often: a turn triggers every enabled
   task without an interval once for each unit of its weight and its deadline's extra.
   */
  lemma NearerServedMore(q: Queue, times: seq<real>, a: string, b: string)
    requires Valid(q) && times != [] && Steady(q, times) && |times| == |Ring(q.order, q.tasks, times[0])|
    requires a in q.tasks && b in q.tasks && NoLessUrgent(q.tasks[a], q.tasks[b])
    requires q.tasks[a].enabled && q.tasks[a].minInterval.None? && q.tasks[b].enabled && q.tasks[b].minInterval.None?
    ensures multiset(Picks(q, times))[Some(a)] >= multiset(Picks(q, times))[Some(b)] >= 1
  {
    RingFair(q, times, a);
    RingFair(q, times, b);
    NearerWeighsMore(q.tasks[a], q.tasks[b], times[0]);
    WeightExactly(q.tasks[b], times[0]);
  }

  /** How often that is: the weight given, and the deadline's extra. */
  lemma TurnExactly(q: Queue, times: seq<real>, id: string)
    requires Valid(q) && times != [] && Steady(q, times) && |times| == |Ring(q.order, q.tasks, times[0])|
    requires id in q.tasks && q.tasks[id].enabled && q.tasks[id].minInterval.None?
    ensures var t, picks := q.tasks[id], multiset(Picks(q, times))[Some(id)];
            if t.deadline.None? then picks == GivenWeight(t) else IsExtra(t, picks - GivenWeight(t), times[0])
  {
    RingFair(q, times, id);
    WeightExactly(q.tasks[id], times[0]);
  }

  // ---------------------------------------------------------------- due times

  /** The interval has passed since the last trigger, and at least a second; a task never triggered waits for nothing. */
  predicate Waited(t: Task, now: real)
    requires t.minInterval.Some?
  {
    if t.lastTriggered.None? then now >= 0.0
    else now - t.lastTriggered.value >= t.minInterval.value && now - t.lastTriggered.value >= 1.0
  }

  /** The task may be handed out. */
  predicate MayRun(t: Task, now: real) {
    t.enabled && (t.minInterval.Some? ==> Waited(t, now))
  }

  lemma DueExactly(t: Task, now: real)
    ensures t.enabled && IsDue(t, now) <==> MayRun(t, now)
    ensures IsFixedDue(t, now) <==> t.minInterval.Some? && MayRun(t, now)
  {}

  /**
   A task is handed out exactly when some task may be, and then one that may; a task without an interval only when no
   task with an interval may.
   */
  lemma PickExactly(q: Queue, now: real)
    requires Valid(q)
    ensures Pick(q, now).Some? <==> exists id :: id in q.tasks && MayRun(q.tasks[id], now)
    ensures Pick(q, now).Some? ==> Pick(q, now).value in q.tasks && MayRun(q.tasks[Pick(q, now).value], now)
    ensures Pick(q, now).Some? ==>
              (q.tasks[Pick(q, now).value].minInterval.Some? <==>
               exists id :: id in q.tasks && q.tasks[id].minInterval.Some? && MayRun(q.tasks[id], now))
  {
    forall id | id in q.tasks
      ensures IsFixedDue(q.tasks[id], now) <==> q.tasks[id].minInterval.Some? && MayRun(q.tasks[id], now)
      ensures InRing(q.tasks[id], now) <==> MayRun(q.tasks[id], now)
    {
      DueExactly(q.tasks[id], now);
    }
    FixedFirst(q, now);
    RingIn(q.order, q.tasks, now);
    RingMember(Ring(q.order, q.tasks, now));
  }

  lemma RingMember(ring: seq<string>)
    ensures ring != [] <==> exists id :: id in ring
  {
    if ring != [] {
      assert ring[0] in ring;
    }
  }

  /** How long the task has been waiting is counted from here. */
  function WaitsSince(t: Task): real
    requires t.minInterval.Some?
  {
    if t.lastTriggered.None? then 0.0
    else t.lastTriggered.value + (if t.minInterval.value > 1.0 then t.minInterval.value else 1.0)
  }

  lemma WaitsLonger(a: Task, b: Task, now: real)
    requires a.minInterval.Some? && b.minInterval.Some? && Waited(a, now) && Waited(b, now)
    ensures Overdue(a, now) > Overdue(b, now) <==> WaitsSince(a) < WaitsSince(b)
    ensures Overdue(a, now) == Overdue(b, now) <==> WaitsSince(a) == WaitsSince(b)
  {}

  /**
   Of the tasks with an interval that may be handed out, the one handed out has been waiting longest; of several, it
   weighs most; of several again, it comes first in the order.
   */
  lemma ServesTheLongestWaiting(q: Queue, now: real, c: string)
    requires Valid(q) && c in q.tasks && q.tasks[c].minInterval.Some? && MayRun(q.tasks[c], now)
    ensures Pick(q, now).Some? && Pick(q, now).value in q.tasks && q.tasks[Pick(q, now).value].minInterval.Some?
    ensures var w := Pick(q, now).value;
            var a, b := q.tasks[w], q.tasks[c];
            && WaitsSince(a) <= WaitsSince(b)
            && (WaitsSince(a) == WaitsSince(b) ==> EffectiveWeight(a, now) >= EffectiveWeight(b, now))
            && (WaitsSince(a) == WaitsSince(b) && EffectiveWeight(a, now) == EffectiveWeight(b, now) ==>
                  IndexOf(q.order, w) <= IndexOf(q.order, c))
  {
    DueExactly(q.tasks[c], now);
    ServesTheMostOverdue(q, now, c);
    var w := Pick(q, now).value;
    DueExactly(q.tasks[w], now);
    WaitsLonger(q.tasks[w], q.tasks[c], now);
    WaitsLonger(q.tasks[c], q.tasks[w], now);
  }

  /** The task picked is charged with one trigger, now, and nothing else about any task changes. */
  lemma ChargedExactly(q: Queue, now: real, id: string)
    requires Valid(q) && id in q.tasks
    ensures Next(q, now).order == q.order && Next(q, now).tasks.Keys == q.tasks.Keys
    ensures Pick(q, now) != Some(id) ==> Next(q, now).tasks[id] == q.tasks[id]
    ensures Pick(q, now) == Some(id) ==>
              Next(q, now).tasks[id]
              == q.tasks[id].(lastTriggered := Some(now), triggerCount := q.tasks[id].triggerCount + 1, updatedAt := now)
  {
    NextFrame(q, now);
  }

  /** Toggling a task marks the time and touches nothing else; a task switched off is not picked. */
  lemma ToggledExactly(q: Queue, id: string, enabled: bool, at: real, now: real)
    requires Valid(q) && id in q.tasks
    ensures var v := AfterSetEnabled(q, id, enabled, at);
            && Valid(v) && v.order == q.order && v.cursor == q.cursor && v.tasks.Keys == q.tasks.Keys
            && (forall k :: k in q.tasks && k != id ==> v.tasks[k] == q.tasks[k])
            && v.tasks[id] == q.tasks[id].(enabled := enabled, updatedAt := at)
            && (!enabled ==> Pick(v, now) != Some(id))
  {
    PickExactly(AfterSetEnabled(q, id, enabled, at), now);
  }
}
