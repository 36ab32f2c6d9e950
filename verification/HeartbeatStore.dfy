/** The task store as the program holds it: one object whose methods rewrite order, tasks and cursor. */
module HeartbeatStore {
  import opened Prelude
  import opened Heartbeat

  datatype Position = Front | Back | Random

  function Stripped(m: Meta): Meta {
    Meta(Strip(m.priority), Strip(m.quota), Strip(m.repoPath), Strip(m.remoteUrl), Strip(m.target), Strip(m.deadlineUtc))
  }

  /** The stripped title, cut after 120 characters. */
  predicate IsTitle(stored: string, title: string) {
    stored <= Strip(title) && |stored| == if |Strip(title)| > 120 then 120 else |Strip(title)|
  }

  /** Each entry as given, without the white space around it. */
  predicate IsMeta(stored: Meta, given: Meta) {
    && stored.priority == Strip(given.priority) && stored.quota == Strip(given.quota)
    && stored.repoPath == Strip(given.repoPath) && stored.remoteUrl == Strip(given.remoteUrl)
    && stored.target == Strip(given.target) && stored.deadlineUtc == Strip(given.deadlineUtc)
  }

  /** A task as creation stores it: stripped, enabled, never triggered, weight and interval at least one. */
  predicate IsNewTask(t: Task, text: string, title: string, weight: int, meta: Meta, deadline: Option<real>,
                      minInterval: Option<real>, interruptActive: bool, id: string, now: real) {
    && t.id == id && t.text == Strip(text) && IsTitle(t.title, title) && IsMeta(t.meta, meta)
    && t.weight == (if weight > 1 then weight else 1) && t.deadline == deadline
    && t.minInterval == (if minInterval.None? then None else Some(if minInterval.value > 1.0 then minInterval.value else 1.0))
    && t.interruptActive == interruptActive && t.enabled && t.lastTriggered.None? && t.triggerCount == 0
    && t.createdAt == now && t.updatedAt == now
  }

  class TaskStore {
    var order: seq<string>
    var tasks: map<string, Task>
    var cursor: int

    function Q(): Queue
      reads this
    {
      Queue(order, tasks, cursor)
    }

    constructor ()
      ensures Q() == Queue([], map[], 0) && Valid(Q())
    {
      order, tasks, cursor := [], map[], 0;
    }

    /** `id` is the fresh identifier and `draw` the random position the environment supplies. */
    method Create(text: string, title: string, weight: int, position: Position, draw: nat, meta: Meta,
                  deadline: Option<real>, minInterval: Option<real>, interruptActive: bool, id: string, now: real)
      returns (r: Option<Task>)
      requires Valid(Q()) && id !in tasks && draw <= |order|
      modifies this
      ensures Valid(Q())
      ensures r.None? <==> Strip(text) == "" || |Strip(text)| > 8000
      ensures r.None? ==> Q() == old(Q())
      ensures r.Some? ==>
                && IsNewTask(r.value, text, title, weight, meta, deadline, minInterval, interruptActive, id, now)
                && Q() == AfterCreate(old(Q()), r.value,
                                      match position case Front => 0 case Back => |old(order)| case Random => draw)
    {
      var cleaned := Strip(text);
      if cleaned == "" || |cleaned| > MAX_HEARTBEAT_TASK_TEXT_LENGTH {
        return None;
      }
      var shortTitle := Strip(title);
      var task := Task(id, cleaned,
                       if |shortTitle| > MAX_HEARTBEAT_TASK_TITLE_LENGTH then shortTitle[..MAX_HEARTBEAT_TASK_TITLE_LENGTH] else shortTitle,
                       true, MaxInt(1, weight), Stripped(meta), deadline,
                       if minInterval.None? then None else Some(MaxReal(1.0, minInterval.value)),
                       interruptActive, now, now, None, 0);
      var index := match position case Front => 0 case Back => |order| case Random => draw;
      InsertTask(task, index);
      r := Some(task);
    }

    method InsertTask(task: Task, index: nat)
      requires Valid(Q()) && task.id !in tasks && task.text != "" && index <= |order|
      modifies this
      ensures Valid(Q()) && Q() == AfterCreate(old(Q()), task, index)
    {
      CreateValid(Q(), task, index);
      tasks := tasks[task.id := task];
      order := order[..index] + [task.id] + order[index..];
      if index <= cursor {
        cursor := cursor + 1;
      }
    }

    method SetEnabled(id: string, enabled: bool, now: real) returns (found: bool)
      requires Valid(Q())
      modifies this
      ensures Valid(Q()) && found == (id in old(tasks))
      ensures found ==> Q() == AfterSetEnabled(old(Q()), id, enabled, now)
      ensures !found ==> Q() == old(Q())
    {
      found := id in tasks;
      if found {
        tasks := tasks[id := tasks[id].(enabled := enabled, updatedAt := now)];
      }
    }

    method Remove(id: string) returns (found: bool)
      requires Valid(Q())
      modifies this
      ensures Valid(Q()) && found == (id in old(tasks))
      ensures found ==> Q() == AfterRemove(old(Q()), id)
      ensures !found ==> Q() == old(Q())
    {
      found := id in tasks;
      if found {
        RemoveValid(Q(), id);
        var before := RemovedBeforeCursor(order, id, cursor);
        tasks := tasks - {id};
        order := Without(order, id);
        if before > 0 {
          cursor := MaxInt(0, cursor - before);
        }
      }
    }

    method BuildRing(now: real) returns (ring: seq<string>)
      requires Valid(Q())
      ensures ring == Ring(order, tasks, now)
    {
      ring := [];
      for i := 0 to |order|
        invariant ring == Ring(order[..i], tasks, now)
      {
        var id := order[i];
        assert order[..i + 1][..i] == order[..i];
        if tasks[id].enabled && IsDue(tasks[id], now) {
          ring := ring + Repeat(id, EffectiveWeight(tasks[id], now));
        }
      }
      assert order[..|order|] == order;
    }

    method TriggerTask(id: string, now: real) returns (task: Task)
      requires id in tasks
      modifies this`tasks
      ensures tasks == old(tasks)[id := Triggered(old(tasks)[id], now)] && task == tasks[id]
    {
      task := tasks[id];
      task := task.(lastTriggered := Some(now), triggerCount := task.triggerCount + 1, updatedAt := now);
      tasks := tasks[id := task];
    }

    /** The selection itself: tier one if any fixed-interval task is due, otherwise the ring. */
    method Select(now: real) returns (c: Choice)
      requires Valid(Q())
      ensures c == Choose(Q(), now)
      ensures !c.Nothing? ==> c.id in tasks
    {
      ChooseKnown(Q(), now);
      FixedDueIn(order, tasks, now);
      var due := FixedDue(order, tasks, now);
      if due != [] {
        return Fixed(MostOverdue(Q(), due, now));
      }
      var ring := BuildRing(now);
      if ring == [] {
        return Nothing;
      }
      var index := Mod(cursor, |ring|);
      c := FromRing(ring[index], Mod(index + 1, |ring|));
    }

    /** Peeks at the next task, or triggers it and moves the cursor on. */
    method NextTask(now: real, consume: bool) returns (r: Option<Task>)
      requires Valid(Q())
      modifies this
      ensures Valid(Q())
      ensures Q() == if consume then Next(old(Q()), now) else old(Q())
      ensures r.Some? <==> Pick(old(Q()), now).Some?
      ensures r.Some? ==> Pick(old(Q()), now).value in tasks && r.value == tasks[Pick(old(Q()), now).value]
    {
      NextFrame(Q(), now);
      var c := Select(now);
      if c.Nothing? {
        return None;
      }
      var task := tasks[c.id];
      if consume {
        task := TriggerTask(c.id, now);
        if c.FromRing? {
          cursor := c.nextCursor;
        }
      }
      r := Some(task);
    }
  }
}
