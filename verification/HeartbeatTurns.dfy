/**
 Whose turn it is after the queue is edited. Creating and removing tasks move the cursor by one place of the order,
 although it counts places of the ring; so a turn is kept in a ring that holds every task once, and otherwise exactly
 where the moved cursor happens to land on the same task.
 */
module HeartbeatTurns {
  import opened Prelude
  import opened Heartbeat
  import opened HeartbeatRuns
  import opened HeartbeatPicks

  /** No task with an interval may be handed out, so the ring decides. */
  ghost predicate RingDecides(q: Queue, now: real) {
    forall id :: id in q.tasks ==> !(q.tasks[id].minInterval.Some? && MayRun(q.tasks[id], now))
  }

  /** How many places of the ring a task takes. */
  function Places(t: Task, now: real): nat {
    if MayRun(t, now) then EffectiveWeight(t, now) else 0
  }

  // ---------------------------------------------------------------- the ring in parts

  lemma {:induction false} RingConcat(a: seq<string>, b: seq<string>, tasks: map<string, Task>, now: real)
    requires (forall id :: id in a ==> id in tasks) && (forall id :: id in b ==> id in tasks)
    ensures Ring(a + b, tasks, now) == Ring(a, tasks, now) + Ring(b, tasks, now)
  {
    if b == [] {
      assert a + b == a;
    } else {
      var front, last := b[..|b| - 1], b[|b| - 1];
      RingConcat(a, front, tasks, now);
      assert (a + b)[..|a + b| - 1] == a + front && (a + b)[|a + b| - 1] == last;
    }
  }

  lemma RingOne(id: string, tasks: map<string, Task>, now: real)
    requires id in tasks
    ensures Ring([id], tasks, now) == Repeat(id, Places(tasks[id], now))
  {
    DueExactly(tasks[id], now);
    assert [id][..0] == [];
    assert Ring([], tasks, now) == [];
  }

  lemma RingAgrees(order: seq<string>, a: map<string, Task>, b: map<string, Task>, now: real)
    requires forall id :: id in order ==> id in a && id in b && a[id] == b[id]
    ensures Ring(order, a, now) == Ring(order, b, now)
  {
    RingCongruent(order, a, b, now, now);
  }

  lemma RingThree(a: seq<string>, id: string, b: seq<string>, tasks: map<string, Task>, now: real)
    requires id in tasks && (forall x :: x in a ==> x in tasks) && (forall x :: x in b ==> x in tasks)
    ensures Ring(a + [id] + b, tasks, now) == Ring(a, tasks, now) + Repeat(id, Places(tasks[id], now)) + Ring(b, tasks, now)
  {
    RingConcat(a + [id], b, tasks, now);
    RingConcat(a, [id], tasks, now);
    RingOne(id, tasks, now);
  }

  /** Where no task with an interval is in the way, the place under the cursor is the pick. */
  lemma PickAtCursor(q: Queue, now: real)
    requires Valid(q) && RingDecides(q, now)
    ensures var ring := Ring(q.order, q.tasks, now);
            Pick(q, now) == if ring == [] then None else Some(ring[Mod(q.cursor, |ring|)])
  {
    forall id | id in q.tasks ensures !IsFixedDue(q.tasks[id], now) {
      DueExactly(q.tasks[id], now);
    }
    FixedFirst(q, now);
    var ring := Ring(q.order, q.tasks, now);
    if ring != [] {
      RingChoice(q, now, ring);
    }
  }

  lemma PickIs(q: Queue, now: real, ring: seq<string>, cursor: int, n: nat)
    requires Valid(q) && RingDecides(q, now) && ring == Ring(q.order, q.tasks, now) && cursor == q.cursor && n == |ring| > 0
    ensures Pick(q, now) == Some(ring[Mod(cursor, n)])
  {
    PickAtCursor(q, now);
  }

  // ---------------------------------------------------------------- creating

  /** The place of the old ring that a place of the new ring comes from, if it is not one of the new task's. */
  function OldPlace(j: nat, before: nat, places: nat): Option<nat> {
    if j < before then Some(j) else if j < before + places then None else Some(j - places)
  }

  lemma InsertedAt(a: seq<string>, block: seq<string>, b: seq<string>, j: nat)
    requires j < |a + block + b|
    ensures match OldPlace(j, |a|, |block|)
            case Some(k) => k < |a + b| && (a + block + b)[j] == (a + b)[k]
            case None => (a + block + b)[j] in block
  {}

  /** The new ring is the old one with the new task's places put in. */
  lemma CreatedRing(q: Queue, task: Task, index: nat, now: real, v: Queue) returns (a: seq<string>, block: seq<string>, b: seq<string>)
    requires Valid(q) && index <= |q.order| && task.id !in q.tasks && v == AfterCreate(q, task, index)
    ensures forall id :: id in v.order ==> id in v.tasks
    ensures a == Ring(q.order[..index], q.tasks, now) && Ring(q.order, q.tasks, now) == a + b
    ensures Ring(v.order, v.tasks, now) == a + block + b && forall i :: 0 <= i < |block| ==> block[i] == task.id
    ensures block == Repeat(task.id, Places(task, now))
  {
    var x, y := q.order[..index], q.order[index..];
    a, block, b := Ring(x, q.tasks, now), Repeat(task.id, Places(task, now)), Ring(y, q.tasks, now);
    assert q.order == x + y;
    RingConcat(x, y, q.tasks, now);
    RingThree(x, task.id, y, v.tasks, now);
    RingAgrees(x, v.tasks, q.tasks, now);
    RingAgrees(y, v.tasks, q.tasks, now);
  }

  lemma CreatedParts(q: Queue, task: Task, index: nat, now: real, v: Queue, ring: seq<string>, longer: seq<string>)
    returns (a: seq<string>, block: seq<string>, b: seq<string>)
    requires Valid(q) && index <= |q.order| && task.id !in q.tasks && v == AfterCreate(q, task, index)
    requires ring == Ring(q.order, q.tasks, now) && longer == Ring(v.order, v.tasks, now)
    ensures |a| == |Ring(q.order[..index], q.tasks, now)| && ring == a + b && longer == a + block + b && task.id !in ring
    ensures forall i :: 0 <= i < |block| ==> block[i] == task.id
  {
    a, block, b := CreatedRing(q, task, index, now, v);
    RingAmongTasks(q, now, task.id);
  }

  /** The cursor after the creation. */
  function CursorAfterCreate(cursor: int, index: nat): int {
    if index <= cursor then cursor + 1 else cursor
  }

  lemma NewPlace(a: seq<string>, id: string, block: seq<string>, b: seq<string>, j: nat, k: nat)
    requires id !in a + b && (forall i :: 0 <= i < |block| ==> block[i] == id) && j < |a + block + b| && k < |a + b|
    ensures var p := OldPlace(j, |a|, |block|);
            (a + block + b)[j] == (a + b)[k] <==> p.Some? && p.value < |a + b| && (a + b)[p.value] == (a + b)[k]
  {
    InsertedAt(a, block, b, j);
    assert (a + b)[k] in a + b;
  }

  lemma CreatedDecides(q: Queue, task: Task, index: nat, now: real)
    requires Valid(q) && RingDecides(q, now) && index <= |q.order| && task.id !in q.tasks && task.text != ""
    requires !(task.minInterval.Some? && MayRun(task, now))
    ensures Valid(AfterCreate(q, task, index)) && RingDecides(AfterCreate(q, task, index), now)
  {
    CreateValid(q, task, index);
  }

  lemma RingAmongTasks(q: Queue, now: real, id: string)
    requires Valid(q) && id !in q.tasks
    ensures id !in Ring(q.order, q.tasks, now)
  {
    RingIn(q.order, q.tasks, now);
  }

  /**
   Creating a task keeps the turn if and only if the moved cursor lands on a place of the old ring that holds the same
   task as the place it was on.
   */
  lemma CreateTurnExactly(q: Queue, task: Task, index: nat, now: real, v: Queue, ring: seq<string>, longer: seq<string>)
    requires Valid(q) && RingDecides(q, now) && index <= |q.order| && task.id !in q.tasks && task.text != ""
    requires !(task.minInterval.Some? && MayRun(task, now)) && v == AfterCreate(q, task, index)
    requires ring == Ring(q.order, q.tasks, now) && ring != [] && Valid(v) && longer == Ring(v.order, v.tasks, now)
    ensures |longer| >= |ring|
    ensures var k := OldPlace(Mod(CursorAfterCreate(q.cursor, index), |longer|), |Ring(q.order[..index], q.tasks, now)|, |longer| - |ring|);
            Pick(v, now) == Pick(q, now) <==> k.Some? && k.value < |ring| && ring[k.value] == ring[Mod(q.cursor, |ring|)]
  {
    CreatedDecides(q, task, index, now);
    var a, block, b := CreatedParts(q, task, index, now, v, ring, longer);
    var cursor := CursorAfterCreate(q.cursor, index);
    PickIs(q, now, ring, q.cursor, |ring|);
    PickIs(v, now, longer, cursor, |longer|);
    NewPlace(a, task.id, block, b, Mod(cursor, |longer|), Mod(q.cursor, |ring|));
  }

  /** The task takes one place of the ring at any time: enabled, without interval or deadline, and of weight one. */
  predicate IsPlain(t: Task) {
    t.enabled && t.minInterval.None? && t.deadline.None? && t.weight <= 1
  }

  ghost predicate AllPlain(q: Queue) {
    Valid(q) && forall id :: id in q.tasks ==> IsPlain(q.tasks[id])
  }

  lemma PlainWeight(t: Task, now: real)
    requires IsPlain(t)
    ensures InRing(t, now) && EffectiveWeight(t, now) == 1
  {
    WeightExactly(t, now);
  }

  lemma {:induction false} PlainRing(order: seq<string>, tasks: map<string, Task>, now: real)
    requires forall id :: id in order ==> id in tasks && IsPlain(tasks[id])
    ensures Ring(order, tasks, now) == order
  {
    if order != [] {
      var front, last := order[..|order| - 1], order[|order| - 1];
      PlainRing(front, tasks, now);
      PlainWeight(tasks[last], now);
      assert Repeat(last, 1) == [last];
    }
  }

  lemma PlainPick(q: Queue, now: real)
    requires AllPlain(q) && q.order != []
    ensures Pick(q, now) == Some(q.order[Mod(q.cursor, |q.order|)])
  {
    PlainRing(q.order, q.tasks, now);
    PickAtCursor(q, now);
  }

  lemma InsertKeepsPlace(order: seq<string>, index: nat, id: string, cursor: nat)
    requires index <= |order| && cursor < |order|
    ensures InsertAt(order, index, id)[CursorAfterCreate(cursor, index)] == order[cursor]
  {}

  /** Where every task takes one place, creating another does not change whose turn it is. */
  lemma CreateKeepsTurn(q: Queue, task: Task, index: nat, now: real)
    requires AllPlain(q) && 0 <= q.cursor < |q.order| && index <= |q.order|
    requires task.id !in q.tasks && task.text != "" && IsPlain(task)
    ensures Valid(AfterCreate(q, task, index)) && Pick(AfterCreate(q, task, index), now) == Pick(q, now) == Some(q.order[q.cursor])
  {
    CreateValid(q, task, index);
    PlainPick(q, now);
    PlainPick(AfterCreate(q, task, index), now);
    InsertKeepsPlace(q.order, index, task.id, q.cursor);
  }

  // ---------------------------------------------------------------- removing

  lemma {:induction false} WithoutAbsent(order: seq<string>, id: string)
    requires id !in order
    ensures Without(order, id) == order
  {
    if order != [] {
      var front, last := order[..|order| - 1], order[|order| - 1];
      assert order == front + [last];
      WithoutAbsent(front, id);
    }
  }

  lemma {:induction false} WithoutConcat(a: seq<string>, b: seq<string>, id: string)
    ensures Without(a + b, id) == Without(a, id) + Without(b, id)
  {
    if b == [] {
      assert a + b == a;
    } else {
      var front, last := b[..|b| - 1], b[|b| - 1];
      WithoutConcat(a, front, id);
      assert (a + b)[..|a + b| - 1] == a + front && (a + b)[|a + b| - 1] == last;
    }
  }

  /** The order around a task. */
  lemma OrderAround(order: seq<string>, id: string, i: nat)
    requires NoRepeats(order) && i < |order| && order[i] == id
    ensures order == order[..i] + [id] + order[i + 1..]
    ensures Without(order, id) == order[..i] + order[i + 1..] && id !in order[..i] && id !in order[i + 1..]
  {
    var a, b := order[..i], order[i + 1..];
    assert order == a + [id] + b;
    WithoutConcat(a + [id], b, id);
    WithoutConcat(a, [id], id);
    WithoutAbsent(a, id);
    WithoutAbsent(b, id);
    assert Without([id], id) == [] by {
      assert [id][..0] == [];
    }
  }

  lemma {:induction false} CountBefore(order: seq<string>, id: string, cursor: int)
    requires NoRepeats(order)
    ensures RemovedBeforeCursor(order, id, cursor) == if exists i :: 0 <= i < |order| && order[i] == id && i < cursor then 1 else 0
  {
    if order != [] {
      var front, last := order[..|order| - 1], |order| - 1;
      CountBefore(front, id, cursor);
      assert forall i :: 0 <= i < last ==> front[i] == order[i] && order[i] != order[last];
    }
  }

  /** The cursor after the removal of the task at place i of the order. */
  function CursorAfterRemove(cursor: int, i: nat): int {
    if i < cursor then cursor - 1 else cursor
  }

  lemma RemovedCursor(q: Queue, id: string, i: nat)
    requires Valid(q) && i < |q.order| && q.order[i] == id
    ensures AfterRemove(q, id).cursor == CursorAfterRemove(q.cursor, i)
  {
    CountBefore(q.order, id, q.cursor);
    assert forall k :: 0 <= k < |q.order| && q.order[k] == id ==> k == i;
  }

  lemma RemovedRing(q: Queue, id: string, i: nat, now: real, v: Queue) returns (a: seq<string>, block: seq<string>, b: seq<string>)
    requires Valid(q) && i < |q.order| && q.order[i] == id && v == AfterRemove(q, id)
    ensures forall x :: x in v.order ==> x in v.tasks
    ensures |a| == |Ring(q.order[..i], q.tasks, now)|
    ensures Ring(q.order, q.tasks, now) == a + block + b && Ring(v.order, v.tasks, now) == a + b
  {
    OrderAround(q.order, id, i);
    var x, y := q.order[..i], q.order[i + 1..];
    a, block, b := Ring(x, q.tasks, now), Repeat(id, Places(q.tasks[id], now)), Ring(y, q.tasks, now);
    RingThree(x, id, y, q.tasks, now);
    RingConcat(x, y, v.tasks, now);
    RingAgrees(x, v.tasks, q.tasks, now);
    RingAgrees(y, v.tasks, q.tasks, now);
  }

  /** The place of the old ring that a place of the new ring comes from. */
  function PlaceBefore(j: nat, before: nat, places: nat): nat {
    if j < before then j else j + places
  }

  lemma CutAt(a: seq<string>, block: seq<string>, b: seq<string>, j: nat)
    requires j < |a + b|
    ensures PlaceBefore(j, |a|, |block|) < |a + block + b|
    ensures (a + b)[j] == (a + block + b)[PlaceBefore(j, |a|, |block|)]
  {}

  lemma SameCut(a: seq<string>, block: seq<string>, b: seq<string>, j: nat, k: nat)
    requires j < |a + b| && k < |a + block + b|
    ensures PlaceBefore(j, |a|, |block|) < |a + block + b|
    ensures (a + b)[j] == (a + block + b)[k] <==> (a + block + b)[PlaceBefore(j, |a|, |block|)] == (a + block + b)[k]
  {
    CutAt(a, block, b, j);
  }

  lemma RemovedDecides(q: Queue, id: string, now: real)
    requires Valid(q) && RingDecides(q, now)
    ensures Valid(AfterRemove(q, id)) && RingDecides(AfterRemove(q, id), now)
  {
    RemoveValid(q, id);
  }

  /** Removing a task keeps the turn if and only if the moved cursor lands on a place that held the same task as before. */
  lemma RemoveTurnExactly(q: Queue, id: string, i: nat, now: real, v: Queue, ring: seq<string>, shorter: seq<string>)
    requires Valid(q) && RingDecides(q, now) && i < |q.order| && q.order[i] == id && v == AfterRemove(q, id)
    requires ring == Ring(q.order, q.tasks, now) && Valid(v) && shorter == Ring(v.order, v.tasks, now) && shorter != []
    ensures |ring| >= |shorter|
    ensures var k := PlaceBefore(Mod(CursorAfterRemove(q.cursor, i), |shorter|), |Ring(q.order[..i], q.tasks, now)|, |ring| - |shorter|);
            k < |ring| && (Pick(v, now) == Pick(q, now) <==> ring[k] == ring[Mod(q.cursor, |ring|)])
  {
    RemovedDecides(q, id, now);
    RemovedCursor(q, id, i);
    var a, block, b := RemovedRing(q, id, i, now, v);
    var cursor := CursorAfterRemove(q.cursor, i);
    PickIs(q, now, ring, q.cursor, |ring|);
    PickIs(v, now, shorter, cursor, |shorter|);
    SameCut(a, block, b, Mod(cursor, |shorter|), Mod(q.cursor, |ring|));
  }

  lemma RemovalKeepsPlace(order: seq<string>, i: nat, cursor: nat)
    requires i < |order| && cursor < |order| && |order| > 1
    ensures var rest := order[..i] + order[i + 1..];
            && (i != cursor ==> rest[Mod(CursorAfterRemove(cursor, i), |rest|)] == order[cursor])
            && (i == cursor ==> rest[Mod(CursorAfterRemove(cursor, i), |rest|)] == order[if cursor + 1 < |order| then cursor + 1 else 0])
  {
    var rest, c := order[..i] + order[i + 1..], CursorAfterRemove(cursor, i);
    if c == |rest| {
      assert Mod(c, |rest|) == Mod(c - |rest|, |rest|) == 0;
    }
  }

  lemma RemovedOrder(q: Queue, id: string, i: nat)
    requires Valid(q) && i < |q.order| && q.order[i] == id
    ensures AfterRemove(q, id).order == q.order[..i] + q.order[i + 1..]
  {
    OrderAround(q.order, id, i);
  }

  lemma RemovedPlain(q: Queue, id: string)
    requires AllPlain(q)
    ensures AllPlain(AfterRemove(q, id))
  {
    RemoveValid(q, id);
  }

  /** Where every task takes one place, removing another keeps the turn, and removing the one in turn passes it to the next. */
  lemma RemoveKeepsTurn(q: Queue, i: nat, now: real)
    requires AllPlain(q) && 0 <= q.cursor < |q.order| && |q.order| > 1 && i < |q.order|
    ensures AllPlain(AfterRemove(q, q.order[i])) && Pick(q, now) == Some(q.order[q.cursor])
    ensures var pick := Pick(AfterRemove(q, q.order[i]), now);
            if i != q.cursor then pick == Some(q.order[q.cursor])
            else pick == Some(q.order[if q.cursor + 1 < |q.order| then q.cursor + 1 else 0])
  {
    var id := q.order[i];
    RemovedPlain(q, id);
    RemovedOrder(q, id, i);
    RemovedCursor(q, id, i);
    PlainPick(q, now);
    PlainPick(AfterRemove(q, id), now);
    RemovalKeepsPlace(q.order, i, q.cursor);
  }

  // ---------------------------------------------------------------- where turns move

  function WeightedTask(id: string, weight: int): Task {
    Task(id, "x", "", true, weight, Meta("", "", "", "", "", ""), None, None, true, 0.0, 0.0, None, 0)
  }

  function WeightedQueue(): Queue {
    Queue(["a", "b"], map["a" := WeightedTask("a", 2), "b" := WeightedTask("b", 1)], 2)
  }

  lemma WeightedPlaces(id: string, weight: int, now: real)
    requires weight >= 1
    ensures Places(WeightedTask(id, weight), now) == weight
  {
    WeightExactly(WeightedTask(id, weight), now);
  }

  lemma RepeatSmall(id: string)
    ensures Repeat(id, 1) == [id] && Repeat(id, 2) == [id, id]
  {}

  lemma WeightedValid(now: real)
    ensures Valid(WeightedQueue()) && RingDecides(WeightedQueue(), now)
  {}

  lemma WeightedRing(now: real)
    ensures Valid(WeightedQueue()) && Ring(WeightedQueue().order, WeightedQueue().tasks, now) == ["a", "a"] + ["b"]
  {
    WeightedValid(now);
    WeightedPlaces("a", 2, now);
    WeightedPlaces("b", 1, now);
    RepeatSmall("a");
    RepeatSmall("b");
    var tasks := WeightedQueue().tasks;
    RingConcat(["a"], ["b"], tasks, now);
    RingOne("a", tasks, now);
    RingOne("b", tasks, now);
    assert ["a"] + ["b"] == WeightedQueue().order;
  }

  lemma LongerWeightedRing(now: real)
    ensures var q, c := WeightedQueue(), WeightedTask("c", 2);
            && Valid(q) && Valid(AfterCreate(q, c, 0)) && RingDecides(AfterCreate(q, c, 0), now)
            && Ring(AfterCreate(q, c, 0).order, AfterCreate(q, c, 0).tasks, now) == ["c", "c"] + (["a", "a"] + ["b"])
  {
    var q, c := WeightedQueue(), WeightedTask("c", 2);
    WeightedValid(now);
    WeightedRing(now);
    WeightedPlaces("c", 2, now);
    RepeatSmall("c");
    CreatedDecides(q, c, 0, now);
    var x, block, y := CreatedRing(q, c, 0, now, AfterCreate(q, c, 0));
    assert q.order[..0] == [] && q.order[0..] == q.order && Ring([], q.tasks, now) == [];
  }

  /** With weights a turn can move: it is b's, and after another task of weight two is put in front it is a's. */
  lemma WeightedTurnMoves(now: real)
    ensures var q, c := WeightedQueue(), WeightedTask("c", 2);
            Valid(q) && Valid(AfterCreate(q, c, 0)) && Pick(q, now) == Some("b") && Pick(AfterCreate(q, c, 0), now) == Some("a")
  {
    WeightedValid(now);
    WeightedRing(now);
    LongerWeightedRing(now);
    PickAtCursor(WeightedQueue(), now);
    PickAtCursor(AfterCreate(WeightedQueue(), WeightedTask("c", 2), 0), now);
  }
}
