/**
 The heartbeat task queue: overdue fixed-interval tasks are served first, the most overdue one
 winning; otherwise a persistent cursor walks a ring in which every task appears as often as its weight.
 */
module Heartbeat {
  import opened Prelude

  const MAX_HEARTBEAT_TASK_TEXT_LENGTH := 8000
  const MAX_HEARTBEAT_TASK_TITLE_LENGTH := 120
  const SECONDS_PER_DAY: real := 86400.0

  /** What a task says about itself, as text; none of it is limited in length. */
  datatype Meta = Meta(priority: string, quota: string, repoPath: string, remoteUrl: string, target: string, deadlineUtc: string)

  /** `deadline` is the parsed form of `meta.deadlineUtc`. */
  datatype Task = Task(
    id: string, text: string, title: string, enabled: bool, weight: int, meta: Meta,
    deadline: Option<real>, minInterval: Option<real>, interruptActive: bool,
    createdAt: real, updatedAt: real, lastTriggered: Option<real>, triggerCount: int)

  datatype Queue = Queue(order: seq<string>, tasks: map<string, Task>, cursor: int)

  // ---------------------------------------------------------------- weights and due times

  function DeadlineBonus(t: Task, now: real): int {
    if t.deadline.None? then 0
    else
      var remaining := t.deadline.value - now;
      var days := remaining / SECONDS_PER_DAY;
      if remaining <= 0.0 then 100
      else if days <= 3.0 then 24
      else if days <= 7.0 then 16
      else if days <= 14.0 then 10
      else if days <= 30.0 then 7
      else if days <= 60.0 then 4
      else if days <= 120.0 then 2
      else 1
  }

  function EffectiveWeight(t: Task, now: real): int {
    MaxInt(1, t.weight) + DeadlineBonus(t, now)
  }

  /** The least time between two triggers of a fixed-interval task. */
  function Gap(t: Task): real
    requires t.minInterval.Some?
  {
    MaxReal(1.0, t.minInterval.value)
  }

  function DueAt(t: Task): real
    requires t.minInterval.Some?
  {
    if t.lastTriggered.None? then 0.0 else t.lastTriggered.value + Gap(t)
  }

  function SecondsUntilDue(t: Task, now: real): Option<real> {
    if t.minInterval.None? then None else Some(MaxReal(0.0, DueAt(t) - now))
  }

  predicate IsDue(t: Task, now: real) {
    var wait := SecondsUntilDue(t, now);
    wait.None? || wait.value <= 0.0
  }

  function Overdue(t: Task, now: real): real {
    if t.minInterval.None? then 0.0 else MaxReal(0.0, now - DueAt(t))
  }

  // ---------------------------------------------------------------- well-formed queues

  predicate NoRepeats(order: seq<string>) {
    forall i, j :: 0 <= i < j < |order| ==> order[i] != order[j]
  }

  /** What every saved queue satisfies: the order lists each task once, and no task is without text. */
  predicate Valid(q: Queue) {
    && NoRepeats(q.order)
    && (forall id :: id in q.order ==> id in q.tasks)
    && (forall id :: id in q.tasks ==> id in q.order)
    && (forall id :: id in q.tasks ==> q.tasks[id].id == id && q.tasks[id].text != "")
  }

  // ---------------------------------------------------------------- tier one: fixed intervals

  predicate IsFixed(t: Task) {
    t.enabled && t.minInterval.Some?
  }

  predicate IsFixedDue(t: Task, now: real) {
    IsFixed(t) && IsDue(t, now)
  }

  function FixedDue(order: seq<string>, tasks: map<string, Task>, now: real): seq<string>
    requires forall id :: id in order ==> id in tasks
  {
    if order == [] then []
    else
      var last := order[|order| - 1];
      FixedDue(order[..|order| - 1], tasks, now) + if IsFixedDue(tasks[last], now) then [last] else []
  }

  /** Comparison by (seconds overdue, effective weight, earliest position in the order). */
  predicate Outranks(a: Task, i: nat, b: Task, j: nat, now: real) {
    || Overdue(a, now) > Overdue(b, now)
    || (Overdue(a, now) == Overdue(b, now)
        && (EffectiveWeight(a, now) > EffectiveWeight(b, now)
            || (EffectiveWeight(a, now) == EffectiveWeight(b, now) && i < j)))
  }

  function IndexOf(order: seq<string>, id: string): (i: nat)
    requires id in order
    ensures i < |order| && order[i] == id
  {
    if order[0] == id then 0 else 1 + IndexOf(order[1..], id)
  }

  predicate Beats(q: Queue, now: real, a: string, b: string)
    requires Valid(q) && a in q.tasks && b in q.tasks
  {
    Outranks(q.tasks[a], IndexOf(q.order, a), q.tasks[b], IndexOf(q.order, b), now)
  }

  /** Python's `max` over a list: keep the first element that nothing later beats. */
  function MostOverdue(q: Queue, cands: seq<string>, now: real): (w: string)
    requires Valid(q) && cands != [] && forall id :: id in cands ==> id in q.tasks
    ensures w in cands
  {
    if |cands| == 1 then cands[0]
    else
      var w := MostOverdue(q, cands[..|cands| - 1], now);
      var c := cands[|cands| - 1];
      if Beats(q, now, c, w) then c else w
  }

  // ---------------------------------------------------------------- tier two: the weighted ring

  function Repeat(id: string, n: nat): (r: seq<string>)
    ensures |r| == n && forall i :: 0 <= i < n ==> r[i] == id
  {
    seq(n, _ => id)
  }

  predicate InRing(t: Task, now: real) {
    t.enabled && IsDue(t, now)
  }

  function Ring(order: seq<string>, tasks: map<string, Task>, now: real): seq<string>
    requires forall id :: id in order ==> id in tasks
  {
    if order == [] then []
    else
      var last := order[|order| - 1];
      var t := tasks[last];
      Ring(order[..|order| - 1], tasks, now) + if InRing(t, now) then Repeat(last, EffectiveWeight(t, now)) else []
  }

  // ---------------------------------------------------------------- selection

  datatype Choice = Nothing | Fixed(id: string) | FromRing(id: string, nextCursor: int)

  function Choose(q: Queue, now: real): Choice
    requires Valid(q)
  {
    FixedDueIn(q.order, q.tasks, now);
    var due := FixedDue(q.order, q.tasks, now);
    if due != [] then Fixed(MostOverdue(q, due, now))
    else
      var ring := Ring(q.order, q.tasks, now);
      if ring == [] then Nothing
      else
        var index := Mod(q.cursor, |ring|);
        FromRing(ring[index], Mod(index + 1, |ring|))
  }

  function Triggered(t: Task, now: real): Task {
    t.(lastTriggered := Some(now), triggerCount := t.triggerCount + 1, updatedAt := now)
  }

  /** The task `next_task` returns. */
  function Pick(q: Queue, now: real): Option<string>
    requires Valid(q)
  {
    match Choose(q, now)
    case Nothing => None
    case Fixed(id) => Some(id)
    case FromRing(id, _) => Some(id)
  }

  /** The queue a consuming `next_task` saves. */
  function Next(q: Queue, now: real): Queue
    requires Valid(q)
  {
    ChooseKnown(q, now);
    match Choose(q, now)
    case Nothing => q
    case Fixed(id) => q.(tasks := q.tasks[id := Triggered(q.tasks[id], now)])
    case FromRing(id, next) => q.(tasks := q.tasks[id := Triggered(q.tasks[id], now)], cursor := next)
  }

  // ---------------------------------------------------------------- what selection means

  lemma {:induction false} FixedDueIn(order: seq<string>, tasks: map<string, Task>, now: real)
    requires forall id :: id in order ==> id in tasks
    ensures forall id :: id in FixedDue(order, tasks, now) <==> id in order && IsFixedDue(tasks[id], now)
  {
    if order != [] {
      FixedDueIn(order[..|order| - 1], tasks, now);
      assert order == order[..|order| - 1] + [order[|order| - 1]];
    }
  }

  lemma {:induction false} RingIn(order: seq<string>, tasks: map<string, Task>, now: real)
    requires forall id :: id in order ==> id in tasks
    ensures forall id :: id in Ring(order, tasks, now) <==> id in order && InRing(tasks[id], now)
  {
    if order != [] {
      var last := order[|order| - 1];
      RingIn(order[..|order| - 1], tasks, now);
      assert order == order[..|order| - 1] + [last];
      var w := EffectiveWeight(tasks[last], now);
      assert last in Repeat(last, w) by { assert Repeat(last, w)[0] == last; }
    }
  }

  lemma ChooseKnown(q: Queue, now: real)
    requires Valid(q)
    ensures Pick(q, now).Some? ==> Pick(q, now).value in q.tasks
  {
    FixedDueIn(q.order, q.tasks, now);
    RingIn(q.order, q.tasks, now);
  }

  /** A fixed-interval task that is due is served before anything in the ring. */
  lemma FixedFirst(q: Queue, now: real)
    requires Valid(q)
    ensures Choose(q, now).Fixed? <==> exists id :: id in q.tasks && IsFixedDue(q.tasks[id], now)
    ensures Choose(q, now).Fixed? ==> Choose(q, now).id in q.tasks && IsFixedDue(q.tasks[Choose(q, now).id], now)
    ensures Choose(q, now).FromRing? ==>
              Choose(q, now).id in q.tasks && q.tasks[Choose(q, now).id].enabled && q.tasks[Choose(q, now).id].minInterval.None?
  {
    FixedDueIn(q.order, q.tasks, now);
    RingIn(q.order, q.tasks, now);
    var due := FixedDue(q.order, q.tasks, now);
    if due != [] {
      assert due[0] in due;
    }
  }

  /** Beating is a strict total order on the tasks of a queue. */
  lemma BeatsTotal(q: Queue, now: real, a: string, b: string)
    requires Valid(q) && a in q.tasks && b in q.tasks && a != b
    ensures Beats(q, now, a, b) != Beats(q, now, b, a)
  {}

  lemma BeatsTransitive(q: Queue, now: real, a: string, b: string, c: string)
    requires Valid(q) && a in q.tasks && b in q.tasks && c in q.tasks
    requires Beats(q, now, a, b) && Beats(q, now, b, c)
    ensures Beats(q, now, a, c)
  {}

  lemma {:induction false} MostOverdueWins(q: Queue, cands: seq<string>, now: real, c: string)
    requires Valid(q) && cands != [] && forall id :: id in cands ==> id in q.tasks
    requires c in cands && c != MostOverdue(q, cands, now)
    ensures Beats(q, now, MostOverdue(q, cands, now), c)
  {
    if |cands| > 1 {
      var front, last := cands[..|cands| - 1], cands[|cands| - 1];
      var w := MostOverdue(q, front, now);
      assert c != last ==> c in front;
      if c in front && c != w {
        MostOverdueWins(q, front, now, c);
        if Beats(q, now, last, w) {
          BeatsTransitive(q, now, last, w, c);
        }
      } else if c == last && last != w {
        BeatsTotal(q, now, last, w);
      }
    }
  }

  /**
   The fixed-interval task served is the unique best one: it beats every other due fixed-interval
   task by seconds overdue, then effective weight, then position.
   */
  lemma ServesTheMostOverdue(q: Queue, now: real, c: string)
    requires Valid(q) && c in q.tasks && IsFixedDue(q.tasks[c], now)
    ensures Choose(q, now).Fixed?
    ensures var w := Choose(q, now).id; w in q.tasks && IsFixedDue(q.tasks[w], now) && (w == c || Beats(q, now, w, c))
  {
    FixedFirst(q, now);
    FixedDueIn(q.order, q.tasks, now);
    var due := FixedDue(q.order, q.tasks, now);
    assert c in due;
    if c != MostOverdue(q, due, now) {
      MostOverdueWins(q, due, now, c);
    }
  }

  /** One consuming call: exactly the picked task changes, by one trigger, and the rest of the queue stays. */
  lemma NextFrame(q: Queue, now: real)
    requires Valid(q)
    ensures Valid(Next(q, now))
    ensures Next(q, now).order == q.order && Next(q, now).tasks.Keys == q.tasks.Keys
    ensures forall id :: id in q.tasks && Some(id) != Pick(q, now) ==> Next(q, now).tasks[id] == q.tasks[id]
    ensures Pick(q, now).Some? ==>
              Pick(q, now).value in q.tasks && Next(q, now).tasks[Pick(q, now).value] == Triggered(q.tasks[Pick(q, now).value], now)
    ensures Pick(q, now).None? ==> Next(q, now) == q
  {
    ChooseKnown(q, now);
  }

  /** A queue with one enabled task that is always due hands that task out. */
  lemma PickOnly(q: Queue, id: string, now: real)
    requires Valid(q) && q.order == [id] && id in q.tasks && q.tasks[id].enabled && q.tasks[id].minInterval.None?
    ensures Pick(q, now) == Some(id)
  {
    FixedDueIn(q.order, q.tasks, now);
    RingIn(q.order, q.tasks, now);
    var ring := Ring(q.order, q.tasks, now);
    assert id in q.order && id in ring;
    assert ring[Mod(q.cursor, |ring|)] in ring;
  }

  // ---------------------------------------------------------------- editing the queue

  function InsertAt(order: seq<string>, index: nat, id: string): seq<string>
    requires index <= |order|
  {
    order[..index] + [id] + order[index..]
  }

  function Without(order: seq<string>, id: string): (r: seq<string>)
    ensures forall x :: x in r ==> x in order && x != id
    ensures forall x :: x in order && x != id ==> x in r
    ensures NoRepeats(order) ==> NoRepeats(r)
  {
    if order == [] then []
    else
      var front, last := order[..|order| - 1], order[|order| - 1];
      assert order == front + [last];
      assert NoRepeats(order) ==> last !in front && NoRepeats(front);
      if last == id then Without(front, id) else Without(front, id) + [last]
  }

  /** How many times id occurs before the cursor (0 or 1 in a saved queue). */
  function RemovedBeforeCursor(order: seq<string>, id: string, cursor: int): nat {
    if order == [] then 0
    else
      RemovedBeforeCursor(order[..|order| - 1], id, cursor)
      + if order[|order| - 1] == id && |order| - 1 < cursor then 1 else 0
  }

  function AfterCreate(q: Queue, task: Task, index: nat): Queue
    requires index <= |q.order|
  {
    Queue(InsertAt(q.order, index, task.id), q.tasks[task.id := task],
          if index <= q.cursor then q.cursor + 1 else q.cursor)
  }

  function AfterRemove(q: Queue, id: string): Queue {
    var before := RemovedBeforeCursor(q.order, id, q.cursor);
    Queue(Without(q.order, id), q.tasks - {id},
          if before > 0 then MaxInt(0, q.cursor - before) else q.cursor)
  }

  function AfterSetEnabled(q: Queue, id: string, enabled: bool, now: real): Queue
    requires id in q.tasks
  {
    q.(tasks := q.tasks[id := q.tasks[id].(enabled := enabled, updatedAt := now)])
  }

  /** Inserting a fresh task anywhere keeps the queue well-formed. */
  lemma CreateValid(q: Queue, task: Task, index: nat)
    requires Valid(q) && index <= |q.order| && task.id !in q.tasks && task.text != ""
    ensures Valid(AfterCreate(q, task, index))
  {}

  /** So does removing one. */
  lemma RemoveValid(q: Queue, id: string)
    requires Valid(q)
    ensures Valid(AfterRemove(q, id)) && AfterRemove(q, id).tasks.Keys == q.tasks.Keys - {id}
  {}
}
