/** Starvation bound, trigger spacing and ring fairness of the heartbeat queue, over whole runs. */
module HeartbeatRuns {
  import opened Prelude
  import opened Heartbeat

  /** What a sequence of consuming calls returns. */
  ghost function Picks(q: Queue, times: seq<real>): (ps: seq<Option<string>>)
    requires Valid(q)
    ensures |ps| == |times|
    decreases |times|
  {
    if times == [] then []
    else
      NextFrame(q, times[0]);
      [Pick(q, times[0])] + Picks(Next(q, times[0]), times[1..])
  }

  // ---------------------------------------------------------------- no starvation

  /** The enabled fixed-interval tasks that are due no later than t. */
  ghost function Rivals(q: Queue, t: string): set<string>
    requires t in q.tasks && IsFixed(q.tasks[t])
  {
    set s | s in q.tasks && IsFixed(q.tasks[s]) && DueAt(q.tasks[s]) <= DueAt(q.tasks[t])
  }

  ghost function EnabledFixed(q: Queue): set<string> {
    set s | s in q.tasks && IsFixed(q.tasks[s])
  }

  /** Of two tasks, the one overdue by more was due earlier, if the other is due at all. */
  lemma OverdueOrder(a: Task, b: Task, now: real)
    requires IsFixed(a) && IsFixed(b) && DueAt(b) <= now && Overdue(a, now) >= Overdue(b, now) && IsDue(a, now)
    ensures DueAt(a) <= DueAt(b)
  {}

  lemma TriggeredIsLater(t: Task, now: real)
    requires IsFixed(t)
    ensures IsFixed(Triggered(t, now)) && DueAt(Triggered(t, now)) > now
  {}

  /** Once a rival is triggered, exactly that one is out of the way. */
  lemma RivalsWithout(q: Queue, q': Queue, w: string, t: string, now: real)
    requires t in q.tasks && IsFixed(q.tasks[t]) && DueAt(q.tasks[t]) <= now && w in q.tasks && IsFixed(q.tasks[w]) && w != t
    requires q'.tasks == q.tasks[w := Triggered(q.tasks[w], now)]
    ensures Rivals(q', t) == Rivals(q, t) - {w}
  {
    TriggeredIsLater(q.tasks[w], now);
  }

  lemma NextTasks(q: Queue, now: real, w: string)
    requires Valid(q) && Pick(q, now) == Some(w)
    ensures Valid(Next(q, now)) && w in q.tasks && Next(q, now).tasks == q.tasks[w := Triggered(q.tasks[w], now)]
  {
    NextFrame(q, now);
  }

  lemma PickIsRival(q: Queue, now: real, t: string)
    requires Valid(q) && t in q.tasks && IsFixed(q.tasks[t]) && DueAt(q.tasks[t]) <= now
    ensures Pick(q, now).Some? && Pick(q, now).value in Rivals(q, t)
  {
    ServesTheMostOverdue(q, now, t);
    OverdueOrder(q.tasks[Pick(q, now).value], q.tasks[t], now);
  }

  /** Each call either serves t or takes one rival out of the way for good. */
  lemma RivalsShrink(q: Queue, now: real, t: string)
    requires Valid(q) && t in q.tasks && IsFixed(q.tasks[t]) && DueAt(q.tasks[t]) <= now
    requires Pick(q, now) != Some(t)
    ensures Valid(Next(q, now)) && t in Next(q, now).tasks && Next(q, now).tasks[t] == q.tasks[t]
    ensures Pick(q, now).Some? && Pick(q, now).value in Rivals(q, t) && Pick(q, now).value != t
    ensures Rivals(Next(q, now), t) == Rivals(q, t) - {Pick(q, now).value}
  {
    PickIsRival(q, now, t);
    var w := Pick(q, now).value;
    NextTasks(q, now, w);
    RivalsWithout(q, Next(q, now), w, t, now);
  }

  lemma PicksTail(q: Queue, times: seq<real>, q': Queue, i: nat)
    requires Valid(q) && times != [] && q' == Next(q, times[0]) && Valid(q') && i + 1 < |times|
    ensures Picks(q, times)[i + 1] == Picks(q', times[1..])[i]
  {}

  /**
   A fixed-interval task that is due is served within as many consuming calls as there are enabled
   fixed-interval tasks due no later than it, whatever the (non-decreasing) clock does meanwhile.
   */
  lemma {:induction false} ServedWithinRivals(q: Queue, times: seq<real>, t: string) returns (i: nat)
    requires Valid(q) && t in q.tasks && IsFixed(q.tasks[t])
    requires NonDecreasing(times) && times != [] && DueAt(q.tasks[t]) <= times[0]
    requires |Rivals(q, t)| <= |times|
    ensures i < |Rivals(q, t)| && Picks(q, times)[i] == Some(t)
    decreases |times|
  {
    var now := times[0];
    assert t in Rivals(q, t);
    if Pick(q, now) == Some(t) {
      i := 0;
    } else {
      RivalsShrink(q, now, t);
      var q', rest := Next(q, now), times[1..];
      assert |Rivals(q', t)| == |Rivals(q, t)| - 1;
      assert t in Rivals(q', t);
      var j := ServedWithinRivals(q', rest, t);
      PicksTail(q, times, q', j);
      i := j + 1;
    }
  }

  /** Hence the bound the scheduler promises: as many calls as there are enabled fixed-interval tasks. */
  lemma NoStarvation(q: Queue, times: seq<real>, t: string)
    requires Valid(q) && t in q.tasks && IsFixed(q.tasks[t])
    requires NonDecreasing(times) && times != [] && IsDue(q.tasks[t], times[0])
    requires |EnabledFixed(q)| <= |times|
    ensures exists i :: 0 <= i < |EnabledFixed(q)| && Picks(q, times)[i] == Some(t)
  {
    SubsetSize(Rivals(q, t), EnabledFixed(q));
    var i := ServedWithinRivals(q, times, t);
  }

  // ---------------------------------------------------------------- spacing of triggers

  datatype Op =
    | Create(task: Task, index: nat)
    | SetEnabled(id: string, enabled: bool, now: real)
    | Remove(id: string)
    | Consume(now: real)

  /** One trigger of a task, with the interval the task has, if any. */
  datatype Trigger = Trigger(id: string, time: real, interval: Option<real>)

  datatype World = World(q: Queue, seen: set<string>, log: seq<Trigger>)

  /** Task ids are drawn once; a created task has text and has never been triggered. */
  predicate Allowed(w: World, op: Op) {
    match op
    case Create(task, index) =>
      task.id !in w.seen && task.text != "" && task.lastTriggered.None? && index <= |w.q.order|
    case SetEnabled(id, _, _) => id in w.q.tasks
    case Remove(id) => id in w.q.tasks
    case Consume(_) => true
  }

  function TriggerOf(q: Queue, now: real): seq<Trigger>
    requires Valid(q)
  {
    ChooseKnown(q, now);
    var p := Pick(q, now);
    if p.None? then []
    else
      var t := q.tasks[p.value];
      [Trigger(p.value, now, t.minInterval)]
  }

  function Advance(w: World, op: Op): World
    requires Valid(w.q) && Allowed(w, op)
  {
    match op
    case Create(task, index) => w.(q := AfterCreate(w.q, task, index), seen := w.seen + {task.id})
    case SetEnabled(id, enabled, now) => w.(q := AfterSetEnabled(w.q, id, enabled, now))
    case Remove(id) => w.(q := AfterRemove(w.q, id))
    case Consume(now) => w.(q := Next(w.q, now), log := w.log + TriggerOf(w.q, now))
  }

  /** A logged trigger is never later than the task's stored last trigger, and its spacing is the task's. */
  ghost predicate Remembered(w: World) {
    forall i :: 0 <= i < |w.log| ==>
      && w.log[i].id in w.seen
      && (w.log[i].id in w.q.tasks && w.log[i].interval.Some? ==>
            var t := w.q.tasks[w.log[i].id];
            && t.minInterval == w.log[i].interval
            && t.lastTriggered.Some? && w.log[i].time <= t.lastTriggered.value)
  }

  ghost predicate Spaced(log: seq<Trigger>) {
    forall i, j :: 0 <= i < j < |log| && log[i].id == log[j].id && log[i].interval.Some? ==>
      log[j].time >= log[i].time + log[i].interval.value && log[j].time >= log[i].time + 1.0
  }

  ghost predicate Inv(w: World) {
    Valid(w.q) && w.q.tasks.Keys <= w.seen && Remembered(w) && Spaced(w.log)
  }

  lemma OpValid(w: World, op: Op)
    requires Inv(w) && Allowed(w, op)
    ensures Valid(Advance(w, op).q) && Advance(w, op).q.tasks.Keys <= Advance(w, op).seen
  {
    match op
    case Create(task, index) => CreateValid(w.q, task, index);
    case SetEnabled(_, _, _) =>
    case Remove(_) =>
    case Consume(now) => NextFrame(w.q, now);
  }

  lemma ConsumeRemembers(w: World, now: real)
    requires Inv(w)
    ensures Remembered(Advance(w, Consume(now)))
  {
    NextFrame(w.q, now);
    FixedFirst(w.q, now);
    var v := Advance(w, Consume(now));
    forall i | 0 <= i < |w.log| && w.log[i].interval.Some? && Pick(w.q, now) == Some(w.log[i].id)
      ensures w.log[i].time <= now
    {
      assert IsFixedDue(w.q.tasks[w.log[i].id], now);
    }
  }

  lemma ConsumeSpaces(w: World, now: real)
    requires Inv(w)
    ensures Spaced(Advance(w, Consume(now)).log)
  {
    NextFrame(w.q, now);
    FixedFirst(w.q, now);
    forall i | 0 <= i < |w.log| && w.log[i].interval.Some? && Pick(w.q, now) == Some(w.log[i].id)
      ensures now >= w.log[i].time + w.log[i].interval.value && now >= w.log[i].time + 1.0
    {
      assert IsFixedDue(w.q.tasks[w.log[i].id], now);
    }
  }

  lemma InvStep(w: World, op: Op)
    requires Inv(w) && Allowed(w, op)
    ensures Inv(Advance(w, op))
  {
    OpValid(w, op);
    match op
    case Create(_, _) =>
    case SetEnabled(_, _, _) =>
    case Remove(_) =>
    case Consume(now) =>
      ConsumeRemembers(w, now);
      ConsumeSpaces(w, now);
  }

  ghost predicate IsRun(ws: seq<World>, ops: seq<Op>) {
    && |ws| == |ops| + 1
    && Valid(ws[0].q) && ws[0].q.tasks.Keys <= ws[0].seen && ws[0].log == []
    && forall i :: 0 <= i < |ops| ==> Valid(ws[i].q) && Allowed(ws[i], ops[i]) && ws[i + 1] == Advance(ws[i], ops[i])
  }

  lemma {:induction false} InvAlong(ws: seq<World>, ops: seq<Op>, n: nat)
    requires IsRun(ws, ops) && n < |ws|
    ensures Inv(ws[n])
  {
    if n > 0 {
      InvAlong(ws, ops, n - 1);
      InvStep(ws[n - 1], ops[n - 1]);
    }
  }

  /**
   However tasks are created, removed, enabled and disabled in between, and whatever the clock does,
   two triggers of one fixed-interval task are at least max(1, min_interval) seconds apart.
   */
  lemma TriggersSpaced(ws: seq<World>, ops: seq<Op>, n: nat, i: nat, j: nat)
    requires IsRun(ws, ops) && n < |ws| && i < j < |ws[n].log|
    requires ws[n].log[i].id == ws[n].log[j].id && ws[n].log[i].interval.Some?
    ensures ws[n].log[j].time - ws[n].log[i].time >= ws[n].log[i].interval.value
    ensures ws[n].log[j].time - ws[n].log[i].time >= 1.0
  {
    InvAlong(ws, ops, n);
  }

  // ---------------------------------------------------------------- fairness of the ring

  /** No fixed-interval task is due at any of the times, and no weight changes between them. */
  ghost predicate Steady(q: Queue, times: seq<real>) {
    && (forall i, id :: 0 <= i < |times| && id in q.tasks ==> !IsFixedDue(q.tasks[id], times[i]))
    && (forall i, id :: 0 <= i < |times| && id in q.tasks ==>
          EffectiveWeight(q.tasks[id], times[i]) == EffectiveWeight(q.tasks[id], times[0]))
  }

  predicate SameShape(a: Task, b: Task, now: real, then_: real) {
    (InRing(a, now) <==> InRing(b, then_)) && EffectiveWeight(a, now) == EffectiveWeight(b, then_)
  }

  lemma {:induction false} RingCongruent(order: seq<string>, a: map<string, Task>, b: map<string, Task>, now: real, then_: real)
    requires forall id :: id in order ==> id in a && id in b && SameShape(a[id], b[id], now, then_)
    ensures Ring(order, a, now) == Ring(order, b, then_)
  {
    if order != [] {
      RingCongruent(order[..|order| - 1], a, b, now, then_);
    }
  }

  lemma {:induction false} RingCount(order: seq<string>, tasks: map<string, Task>, now: real, id: string)
    requires NoRepeats(order) && forall x :: x in order ==> x in tasks
    ensures multiset(Ring(order, tasks, now))[id]
         == if id in order && InRing(tasks[id], now) then EffectiveWeight(tasks[id], now) else 0
  {
    if order != [] {
      var front, last := order[..|order| - 1], order[|order| - 1];
      assert order == front + [last];
      RingCount(front, tasks, now, id);
      var w := EffectiveWeight(tasks[last], now);
      RepeatCount(last, w, id);
    }
  }

  lemma {:induction false} RepeatCount(x: string, n: nat, id: string)
    ensures multiset(Repeat(x, n))[id] == if id == x then n else 0
  {
    if n > 0 {
      assert Repeat(x, n) == Repeat(x, n - 1) + [x];
      RepeatCount(x, n - 1, id);
    } else {
      assert Repeat(x, 0) == [];
    }
  }

  /** A position of the ring, for offsets that wrap around at most once. */
  function Wrap(x: int, n: int): int {
    if x < n then x else x - n
  }

  /** The i-th pick is the ring position i steps after k. */
  ghost predicate At(ring: seq<string>, k: nat, i: nat, p: Option<string>) {
    0 <= Wrap(k + i, |ring|) < |ring| && p == Some(ring[Wrap(k + i, |ring|)])
  }

  lemma AtStep(ring: seq<string>, k: nat, i: nat, p: Option<string>)
    requires k < |ring| && 0 < i < |ring| && At(ring, Mod(k + 1, |ring|), i - 1, p)
    ensures At(ring, k, i, p)
  {}

  lemma RingChoice(q: Queue, now: real, ring: seq<string>)
    requires Valid(q) && ring == Ring(q.order, q.tasks, now) && ring != []
    requires forall id :: id in q.tasks ==> !IsFixedDue(q.tasks[id], now)
    ensures Choose(q, now) == FromRing(ring[Mod(q.cursor, |ring|)], Mod(Mod(q.cursor, |ring|) + 1, |ring|))
  {
    FixedFirst(q, now);
    var c := Choose(q, now);
    assert !c.Fixed?;
  }

  /** While nothing changes, the calls walk the ring one position at a time from the cursor. */
  lemma {:induction false} WalksTheRing(q: Queue, times: seq<real>, ring: seq<string>, i: nat)
    requires Valid(q) && Steady(q, times) && i < |times| && i < |ring|
    requires ring == Ring(q.order, q.tasks, times[0])
    ensures At(ring, Mod(q.cursor, |ring|), i, Picks(q, times)[i])
    decreases |times|
  {
    var k := Mod(q.cursor, |ring|);
    RingChoice(q, times[0], ring);
    NextFrame(q, times[0]);
    var q', rest := Next(q, times[0]), times[1..];
    var ps, ps' := Picks(q, times), Picks(q', rest);
    assert ps == [Pick(q, times[0])] + ps';
    if i > 0 {
      SteadyRing(q, q', times);
      WalksTheRing(q', rest, ring, i - 1);
      assert q'.cursor == Mod(k + 1, |ring|);
      assert ps[i] == ps'[i - 1];
      AtStep(ring, k, i, ps[i]);
    } else {
      assert ps[0] == Some(ring[k]);
    }
  }

  lemma SteadyTask(q: Queue, q': Queue, times: seq<real>, k: nat, id: string)
    requires Valid(q) && Steady(q, times) && k < |times|
    requires Choose(q, times[0]).FromRing? && q' == Next(q, times[0]) && id in q.tasks
    ensures id in q'.tasks && !IsFixedDue(q'.tasks[id], times[k])
    ensures SameShape(q'.tasks[id], q.tasks[id], times[k], times[0])
  {
    NextFrame(q, times[0]);
    FixedFirst(q, times[0]);
    assert !IsFixedDue(q.tasks[id], times[0]) && !IsFixedDue(q.tasks[id], times[k]);
    assert EffectiveWeight(q.tasks[id], times[k]) == EffectiveWeight(q.tasks[id], times[0]);
  }

  lemma SteadyRing(q: Queue, q': Queue, times: seq<real>)
    requires Valid(q) && Steady(q, times) && |times| > 1
    requires Choose(q, times[0]).FromRing? && q' == Next(q, times[0])
    ensures Valid(q') && Steady(q', times[1..])
    ensures Ring(q'.order, q'.tasks, times[1]) == Ring(q.order, q.tasks, times[0])
  {
    NextFrame(q, times[0]);
    forall k, id | 0 <= k < |times| && id in q'.tasks
      ensures id in q.tasks && !IsFixedDue(q'.tasks[id], times[k]) && SameShape(q'.tasks[id], q.tasks[id], times[k], times[0])
    {
      SteadyTask(q, q', times, k, id);
    }
    RingCongruent(q.order, q'.tasks, q.tasks, times[1], times[0]);
  }

  lemma RotationCount(ring: seq<string>, k: nat, ps: seq<Option<string>>, id: string)
    requires k < |ring| == |ps|
    requires forall i :: 0 <= i < |ps| ==> At(ring, k, i, ps[i])
    ensures multiset(ps)[Some(id)] == multiset(ring)[id]
  {
    var turned := ring[k..] + ring[..k];
    forall i | 0 <= i < |ring| ensures ps[i] == Some(turned[i]) {
      assert At(ring, k, i, ps[i]);
    }
    SomeCount(turned, ps, id);
    assert ring == ring[..k] + ring[k..];
  }

  lemma {:induction false} SomeCount(s: seq<string>, ps: seq<Option<string>>, id: string)
    requires |s| == |ps| && forall i :: 0 <= i < |s| ==> ps[i] == Some(s[i])
    ensures multiset(ps)[Some(id)] == multiset(s)[id]
  {
    if s != [] {
      var n := |s| - 1;
      SomeCount(s[..n], ps[..n], id);
      assert s == s[..n] + [s[n]] && ps == ps[..n] + [ps[n]];
    }
  }

  /**
   While order, enabled flags and effective weights hold still and no fixed-interval task is due, any
   len(ring) consecutive calls trigger each ring task exactly its effective weight many times, and no
   other task at all, from any starting cursor.
   */
  lemma RingFair(q: Queue, times: seq<real>, id: string)
    requires Valid(q) && times != [] && Steady(q, times)
    requires |times| == |Ring(q.order, q.tasks, times[0])|
    ensures multiset(Picks(q, times))[Some(id)]
         == if id in q.tasks && q.tasks[id].enabled && q.tasks[id].minInterval.None?
            then EffectiveWeight(q.tasks[id], times[0]) else 0
  {
    var ring := Ring(q.order, q.tasks, times[0]);
    var ps := Picks(q, times);
    var k := Mod(q.cursor, |ring|);
    forall i | 0 <= i < |ps| ensures At(ring, k, i, ps[i]) {
      WalksTheRing(q, times, ring, i);
    }
    RotationCount(ring, k, ps, id);
    RingCount(q.order, q.tasks, times[0], id);
    assert id in q.tasks ==> !IsFixedDue(q.tasks[id], times[0]);
  }
}
