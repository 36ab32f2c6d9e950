/** What the relay promises over whole runs, and what it promises only on a condition. */
module RelayRuns {
  import opened Prelude
  import opened EventNames
  import opened Relay
  import opened RelayTick

  // ---------------------------------------------------------------- at most once

  /** Consumed under one id, consumed from one file: then the earlier time it could not be unlinked. */
  lemma SameId(w: World, i: nat, j: nat)
    requires Order(w) && i < j < |w.inbox.consumed| && w.inbox.consumed[i].event.id == w.inbox.consumed[j].event.id
    ensures w.inbox.consumed[i].at == w.inbox.consumed[j].at && i in w.inbox.failed
  {
    var a, b := w.inbox.consumed[i], w.inbox.consumed[j];
    assert IsPublished(w.inbox.published, a.event, a.at) && IsPublished(w.inbox.published, b.event, b.at);
    assert a.event in w.inbox.drawn && b.event in w.inbox.drawn;
  }

  /**
   Deliveries are different consumptions, in the order of consumption; and one event reaches the browser again only
   if its file could not be unlinked the time before.
   */
  lemma DeliveredAtMostOnce(ws: seq<World>, steps: seq<Step>, n: nat, i: nat, j: nat)
    requires IsRun(ws, steps) && n < |ws| && i < j < |ws[n].outbox.delivered|
    ensures ws[n].outbox.delivered[i] < ws[n].outbox.delivered[j] < |ws[n].inbox.consumed|
    ensures ws[n].inbox.consumed[ws[n].outbox.delivered[i]].event.id == ws[n].inbox.consumed[ws[n].outbox.delivered[j]].event.id ==>
              ws[n].outbox.delivered[i] in ws[n].inbox.failed
  {
    InvAlong(ws, steps, n);
    var x, y := ws[n].outbox.delivered[i], ws[n].outbox.delivered[j];
    if ws[n].inbox.consumed[x].event.id == ws[n].inbox.consumed[y].event.id {
      SameId(ws[n], x, y);
    }
  }

  /** The step fails to unlink the file that the event consumed at k was read from. */
  predicate FailsToUnlink(w: World, s: Step, k: nat) {
    && s.Unlink? && !s.unlinked && w.phase.Taking? && w.phase.todo != [] && w.phase.hand == Held(k)
    && w.phase.todo[0] in w.inbox.inputs
  }

  ghost predicate FailedBefore(ws: seq<World>, steps: seq<Step>, n: nat, k: nat)
    requires n <= |steps| && n <= |ws|
  {
    exists l :: 0 <= l < n && FailsToUnlink(ws[l], steps[l], k)
  }

  lemma FailedBeforeStep(ws: seq<World>, steps: seq<Step>, n: nat, k: nat)
    requires n < |steps| && n < |ws|
    ensures FailedBefore(ws, steps, n + 1, k) <==> FailedBefore(ws, steps, n, k) || FailsToUnlink(ws[n], steps[n], k)
  {}

  lemma FailedStep(w: World, s: Step, v: World, k: nat)
    requires Enabled(w, s) && v == Next(w, s)
    ensures k in v.inbox.failed <==> k in w.inbox.failed || FailsToUnlink(w, s, k)
  {
    if !InTick(s) {
      OutsideTick(w, s, v);
    }
  }

  lemma {:induction false} FailedExactly(ws: seq<World>, steps: seq<Step>, n: nat, k: nat)
    requires IsRun(ws, steps) && n < |ws|
    ensures k in ws[n].inbox.failed <==> FailedBefore(ws, steps, n, k)
  {
    if n > 0 {
      FailedExactly(ws, steps, n - 1, k);
      FailedStep(ws[n - 1], steps[n - 1], ws[n], k);
      FailedBeforeStep(ws, steps, n - 1, k);
    }
  }

  lemma OnlyFailedComesBack(w: World, k: nat)
    requires Order(w) && k < |w.inbox.consumed| && ComesBack(k, Waiting(w.inbox.inputs, w.phase), w.inbox.consumed)
    ensures k in w.inbox.failed
  {}

  /**
   A consumed event is consumed again, or is about to be, only if the step that should have unlinked its file failed;
   and if that step failed, then it is, unless the file is later unlinked unread or the context is cleared.
   */
  lemma TakenAgainExactly(ws: seq<World>, steps: seq<Step>, n: nat, k: nat)
    requires IsRun(ws, steps) && n < |ws| && k < |ws[n].inbox.consumed|
    ensures var w := ws[n];
            var t, again := w.inbox.consumed[k], ComesBack(k, Waiting(w.inbox.inputs, w.phase), w.inbox.consumed);
            && (again ==> FailedBefore(ws, steps, n, k))
            && (t.event !in w.inbox.dropped && t.at >= w.inbox.clearedAt ==> (again <==> FailedBefore(ws, steps, n, k)))
  {
    InvAlong(ws, steps, n);
    FailedExactly(ws, steps, n, k);
    if ComesBack(k, Waiting(ws[n].inbox.inputs, ws[n].phase), ws[n].inbox.consumed) {
      OnlyFailedComesBack(ws[n], k);
    }
  }

  /** Whenever no tick is in progress, every consumption has exactly one result written for it. */
  lemma OneResultEach(ws: seq<World>, steps: seq<Step>, n: nat)
    requires IsRun(ws, steps) && n < |ws| && ws[n].phase.Idle?
    ensures |ws[n].outbox.resolved| == |ws[n].inbox.consumed|
    ensures forall i :: 0 <= i < |ws[n].inbox.consumed| ==> ws[n].outbox.resolved[i] == ws[n].inbox.consumed[i].event.id
    ensures forall i, j :: 0 <= i < j < |ws[n].outbox.resolved| && ws[n].outbox.resolved[i] == ws[n].outbox.resolved[j] ==>
            i in ws[n].inbox.failed
  {
    InvAlong(ws, steps, n);
    var w := ws[n];
    forall i, j | 0 <= i < j < |w.outbox.resolved| && w.outbox.resolved[i] == w.outbox.resolved[j] ensures i in w.inbox.failed {
      SameId(w, i, j);
    }
  }

  // ---------------------------------------------------------------- nothing lost

  /** Between two points the context is not cleared. */
  ghost predicate NotCleared(steps: seq<Step>, m: nat, n: nat)
    requires n <= |steps|
  {
    forall k :: m <= k < n ==> !steps[k].ClearContext?
  }

  lemma ClearStep(w: World, s: Step, v: World)
    requires Enabled(w, s) && v == Next(w, s) && !s.ClearContext?
    ensures v.inbox.clearedAt == w.inbox.clearedAt
  {}

  lemma {:induction false} ClearedAtStays(ws: seq<World>, steps: seq<Step>, m: nat, n: nat)
    requires IsPath(ws, steps) && m <= n < |ws| && NotCleared(steps, m, n)
    ensures ws[n].inbox.clearedAt == ws[m].inbox.clearedAt
  {
    if m < n {
      ClearedAtStays(ws, steps, m, n - 1);
      ClearStep(ws[n - 1], steps[n - 1], ws[n]);
    }
  }

  /** The event is pending, has been consumed, or was unlinked unread. */
  ghost predicate IsSomewhere(w: World, p: Payload) {
    p.file in w.inbox.inputs || (exists k :: 0 <= k < |w.inbox.consumed| && w.inbox.consumed[k].event == p) || p in w.inbox.dropped
  }

  lemma AccountedSomewhere(w: World, i: nat)
    requires FilesInv(w) && w.inbox.clearedAt <= i < |w.inbox.published|
    ensures IsSomewhere(w, w.inbox.published[i])
  {
    assert Accounted(i, w.inbox.published, Waiting(w.inbox.inputs, w.phase), w.inbox.consumed, w.inbox.dropped);
    if k :| 0 <= k < |w.inbox.consumed| && w.inbox.consumed[k].at == i {
      assert IsPublished(w.inbox.published, w.inbox.consumed[k].event, i);
    }
  }

  lemma FilesAlong(ws: seq<World>, steps: seq<Step>, n: nat)
    requires IsRun(ws, steps) && n < |ws|
    ensures FilesInv(ws[n])
  {
    InvAlong(ws, steps, n);
  }

  lemma ClearedBefore(ws: seq<World>, steps: seq<Step>, n: nat)
    requires IsRun(ws, steps) && n < |ws|
    ensures ws[n].inbox.clearedAt <= |ws[n].inbox.published|
  {
    FilesAlong(ws, steps, n);
  }

  /** An event published at step l is not lost as long as the context is not cleared after that. */
  lemma NoEventLost(ws: seq<World>, steps: seq<Step>, l: nat, n: nat)
    requires IsRun(ws, steps) && l < n < |ws| && steps[l].Publish? && NotCleared(steps, l, n)
    ensures IsSomewhere(ws[n], steps[l].payload)
  {
    ClearedBefore(ws, steps, l);
    FilesAlong(ws, steps, n);
    ClearedAtStays(ws, steps, l, n);
    PublishedGrows(ws, steps, l + 1, n);
    PublishedLast(ws[l], steps[l].payload, ws[l + 1]);
    AccountedSomewhere(ws[n], |ws[l].inbox.published|);
  }

  lemma PublishedLast(w: World, p: Payload, v: World)
    requires Enabled(w, Publish(p)) && v == Next(w, Publish(p))
    ensures |v.inbox.published| == |w.inbox.published| + 1 && v.inbox.published[|w.inbox.published|] == p
  {}

  // ---------------------------------------------------------------- the order of delivery

  /** What has happened is only ever added to. */
  lemma LogsGrow(w: World, s: Step, v: World)
    requires Enabled(w, s) && v == Next(w, s)
    ensures w.inbox.published <= v.inbox.published && w.inbox.consumed <= v.inbox.consumed
  {}

  lemma {:induction false} PublishedGrows(ws: seq<World>, steps: seq<Step>, m: nat, n: nat)
    requires IsPath(ws, steps) && m <= n < |ws|
    ensures ws[m].inbox.published <= ws[n].inbox.published
  {
    if m < n {
      PublishedGrows(ws, steps, m, n - 1);
      LogsGrow(ws[n - 1], steps[n - 1], ws[n]);
    }
  }

  /** The tick in progress at n listed the directory at m. */
  ghost predicate ListedSince(ws: seq<World>, steps: seq<Step>, m: nat, n: nat) {
    && m < n < |ws| && m < |steps| && steps[m].BeginTick?
    && forall k :: m < k <= n ==> ws[k].phase.Taking? && ws[k].inbox.ticks == ws[m].inbox.ticks + 1
  }

  lemma TakingContinues(w: World, s: Step, v: World)
    requires Enabled(w, s) && v == Next(w, s) && v.phase.Taking?
    ensures s.BeginTick? ==> v.phase.listed == |w.inbox.published| && v.inbox.ticks == w.inbox.ticks + 1
    ensures !s.BeginTick? ==> w.phase.Taking? && v.phase.listed == w.phase.listed && v.inbox.ticks == w.inbox.ticks
  {
    if !InTick(s) {
      OutsideTick(w, s, v);
    }
  }

  lemma {:induction false} ListingBegan(ws: seq<World>, steps: seq<Step>, n: nat) returns (m: nat)
    requires IsRun(ws, steps) && n < |ws| && ws[n].phase.Taking?
    ensures ListedSince(ws, steps, m, n) && |ws[m].inbox.published| == ws[n].phase.listed
  {
    TakingContinues(ws[n - 1], steps[n - 1], ws[n]);
    if steps[n - 1].BeginTick? {
      m := n - 1;
    } else {
      m := ListingBegan(ws, steps, n - 1);
    }
  }

  /** The event was read at step l, by the tick that had listed the directory at step m. */
  ghost predicate TookFrom(ws: seq<World>, steps: seq<Step>, m: nat, l: nat, t: Taken) {
    && l + 1 < |ws| && l < |steps| && steps[l].ReadFile? && ListedSince(ws, steps, m, l)
    && ws[l + 1].inbox.consumed == ws[l].inbox.consumed + [t] && t.listed == |ws[m].inbox.published|
      && t.tick == ws[m].inbox.ticks + 1
  }

  lemma ConsumedAt(w: World, s: Step, v: World, k: nat)
    requires Enabled(w, s) && v == Next(w, s) && |w.inbox.consumed| <= k < |v.inbox.consumed|
    ensures s.ReadFile? && w.phase.Taking? && v.inbox.consumed == w.inbox.consumed + [v.inbox.consumed[k]]
    ensures v.inbox.consumed[k].listed == w.phase.listed && v.inbox.consumed[k].tick == w.inbox.ticks
  {
    if !InTick(s) {
      OutsideTick(w, s, v);
    }
  }

  lemma {:induction false} TakenWhen(ws: seq<World>, steps: seq<Step>, n: nat, k: nat) returns (m: nat, l: nat)
    requires IsRun(ws, steps) && n < |ws| && k < |ws[n].inbox.consumed|
    ensures l < n && TookFrom(ws, steps, m, l, ws[n].inbox.consumed[k])
  {
    LogsGrow(ws[n - 1], steps[n - 1], ws[n]);
    if k < |ws[n - 1].inbox.consumed| {
      m, l := TakenWhen(ws, steps, n - 1, k);
    } else {
      ConsumedAt(ws[n - 1], steps[n - 1], ws[n], k);
      m := ListingBegan(ws, steps, n - 1);
      l := n - 1;
    }
  }

  /** Being among the first so many published events is having been published before. */
  lemma PublishedBefore(w: World, k: nat, listed: nat)
    requires Order(w) && k < |w.inbox.consumed| && listed <= |w.inbox.published|
    ensures w.inbox.consumed[k].at < listed <==> w.inbox.consumed[k].event in w.inbox.published[..listed]
  {
    var t := w.inbox.consumed[k];
    assert IsPublished(w.inbox.published, t.event, t.at);
    if t.at < listed {
      assert w.inbox.published[..listed][t.at] == t.event;
    }
  }

  /** The i-th event to reach the browser. */
  ghost predicate IsDelivery(w: World, i: nat, t: Taken) {
    i < |w.outbox.delivered| && w.outbox.delivered[i] < |w.inbox.consumed| && w.inbox.consumed[w.outbox.delivered[i]] == t
  }

  lemma StampsByName(w: World, x: nat, y: nat)
    requires Order(w) && x < |w.inbox.consumed| && y < |w.inbox.consumed|
             && LexLess(w.inbox.consumed[x].event.file, w.inbox.consumed[y].event.file)
    ensures w.inbox.consumed[x].event.tag.stamp <= w.inbox.consumed[y].event.tag.stamp
  {
    var a, b := w.inbox.consumed[x], w.inbox.consumed[y];
    assert IsPublished(w.inbox.published, a.event, a.at) && IsPublished(w.inbox.published, b.event, b.at);
    assert WellNamed(a.event) && WellNamed(b.event);
    NameOrder(a.event.tag, b.event.tag);
  }

  /** The earlier stamp is delivered first exactly if no later tick took it. */
  lemma DeliveryOrder(w: World, i: nat, j: nat, a: Taken, b: Taken)
    requires Order(w) && Pipeline(w) && IsDelivery(w, i, a) && IsDelivery(w, j, b)
    ensures a.event.tag.stamp < b.event.tag.stamp ==> (i < j <==> a.tick <= b.tick)
    ensures i != j && b.at >= a.listed ==> i < j
  {
    var x, y := w.outbox.delivered[i], w.outbox.delivered[j];
    assert i < j <==> x < y;
    assert TakenKnown(w.inbox.consumed, w.inbox.failed, w.inbox.published) && TickOrder(w.inbox.consumed, w.inbox.ticks);
    if a.event.tag.stamp < b.event.tag.stamp && y < x && a.tick == b.tick {
      StampsByName(w, y, x);
    }
  }

  /** What was listed and not left behind is taken by that tick at the latest. */
  lemma ListedIsTaken(w: World, i: nat, j: nat, a: Taken, b: Taken)
    requires Order(w) && IsDelivery(w, i, a) && IsDelivery(w, j, b) && a.at !in w.inbox.left
    ensures a.tick <= b.tick ==> a.at < b.listed || a.tick == b.tick
    ensures a.at < b.listed ==> a.tick <= b.tick
  {
    var x, y := w.outbox.delivered[i], w.outbox.delivered[j];
    assert TakenKnown(w.inbox.consumed, w.inbox.failed, w.inbox.published) && TickOrder(w.inbox.consumed, w.inbox.ticks);
    assert NotPassed(Waiting(w.inbox.inputs, w.phase), w.inbox.consumed, w.inbox.left, Rest(w.phase), w.inbox.ticks);
  }

  lemma DeliveredEvent(ws: seq<World>, steps: seq<Step>, n: nat, i: nat, a: Taken, b: Taken, m: nat, l: nat)
    requires IsRun(ws, steps) && n < |ws| && IsDelivery(ws[n], i, a) && l < n && TookFrom(ws, steps, m, l, b)
    requires b.listed <= |ws[n].inbox.published|
    ensures a.event in ws[m].inbox.published <==> a.at < b.listed
  {
    InvAlong(ws, steps, n);
    PublishedGrows(ws, steps, m, n);
    assert ws[n].inbox.published[..b.listed] == ws[m].inbox.published;
    PublishedBefore(ws[n], ws[n].outbox.delivered[i], b.listed);
  }

  lemma ListedKnown(w: World, j: nat, b: Taken)
    requires Order(w) && IsDelivery(w, j, b)
    ensures b.listed <= |w.inbox.published|
  {}

  lemma TickStep(w: World, s: Step, v: World)
    requires Enabled(w, s) && v == Next(w, s)
    ensures v.inbox.ticks == if s.BeginTick? then w.inbox.ticks + 1 else w.inbox.ticks
  {
    if !InTick(s) {
      OutsideTick(w, s, v);
    }
  }

  lemma {:induction false} TicksGrow(ws: seq<World>, steps: seq<Step>, m: nat, n: nat)
    requires IsPath(ws, steps) && m <= n < |ws|
    ensures ws[m].inbox.ticks <= ws[n].inbox.ticks
  {
    if m < n {
      TicksGrow(ws, steps, m, n - 1);
      TickStep(ws[n - 1], steps[n - 1], ws[n]);
    }
  }

  /** Ticks are numbered in the order of their listings. */
  lemma ListingsNumbered(ws: seq<World>, steps: seq<Step>, m: nat, k: nat)
    requires IsPath(ws, steps) && m < |steps| && k < |steps| && steps[m].BeginTick? && steps[k].BeginTick?
    ensures ws[m].inbox.ticks <= ws[k].inbox.ticks <==> m <= k
  {
    TickStep(ws[k], steps[k], ws[k + 1]);
    if m <= k {
      TicksGrow(ws, steps, m, k);
    } else {
      TicksGrow(ws, steps, k + 1, m);
    }
  }

  /** Taken no later means published no later, whatever was left behind. */
  lemma TakenNoLater(w: World, i: nat, j: nat, a: Taken, b: Taken)
    requires Order(w) && Pipeline(w) && IsDelivery(w, i, a) && IsDelivery(w, j, b) && i < j
    ensures a.at < b.listed
  {
    assert w.outbox.delivered[i] < w.outbox.delivered[j];
    assert TakenKnown(w.inbox.consumed, w.inbox.failed, w.inbox.published);
  }

  /**
   Of two events the earlier-stamped one is delivered first if and only if the tick that took it listed the directory
   no later than the tick that took the other; and, unless the earlier-stamped one had to be left on file, if and only
   if it had been published when the other's tick listed the directory.
   */
  lemma StampOrderExactly(ws: seq<World>, steps: seq<Step>, n: nat, i: nat, j: nat, a: Taken, b: Taken)
    returns (k: nat, h: nat, m: nat, l: nat)
    requires IsRun(ws, steps) && n < |ws| && IsDelivery(ws[n], i, a) && IsDelivery(ws[n], j, b)
    requires a.event.tag.stamp < b.event.tag.stamp
    ensures h < n && TookFrom(ws, steps, k, h, a) && l < n && TookFrom(ws, steps, m, l, b)
    ensures i < j <==> k <= m
    ensures i < j ==> a.event in ws[m].inbox.published
    ensures a.at !in ws[n].inbox.left ==> (i < j <==> a.event in ws[m].inbox.published)
  {
    k, h := TakenWhen(ws, steps, n, ws[n].outbox.delivered[i]);
    m, l := TakenWhen(ws, steps, n, ws[n].outbox.delivered[j]);
    InvAlong(ws, steps, n);
    ListedKnown(ws[n], j, b);
    DeliveryOrder(ws[n], i, j, a, b);
    ListingsNumbered(ws, steps, k, m);
    DeliveredEvent(ws, steps, n, i, a, b, m, l);
    StampCases(ws[n], i, j, a, b);
  }

  lemma StampCases(w: World, i: nat, j: nat, a: Taken, b: Taken)
    requires Order(w) && Pipeline(w) && IsDelivery(w, i, a) && IsDelivery(w, j, b) && a.event.tag.stamp < b.event.tag.stamp
    ensures i < j ==> a.at < b.listed
    ensures a.at !in w.inbox.left ==> (i < j <==> a.at < b.listed)
  {
    DeliveryOrder(w, i, j, a, b);
    if i < j {
      TakenNoLater(w, i, j, a, b);
    }
    if a.at !in w.inbox.left {
      ListedIsTaken(w, i, j, a, b);
    }
  }

  /** The step fails to unlink the file of the event published at this position. */
  predicate LeavesFile(w: World, s: Step, at: nat) {
    && s.Unlink? && !s.unlinked && w.phase.Taking? && w.phase.todo != [] && w.phase.todo[0] in w.inbox.inputs
    && w.inbox.inputs[w.phase.todo[0]].at == at
  }

  ghost predicate LeftBefore(ws: seq<World>, steps: seq<Step>, n: nat, at: nat)
    requires n <= |steps| && n <= |ws|
  {
    exists l :: 0 <= l < n && LeavesFile(ws[l], steps[l], at)
  }

  lemma LeftStep(w: World, s: Step, v: World, at: nat)
    requires Enabled(w, s) && v == Next(w, s)
    ensures at in v.inbox.left <==> at in w.inbox.left || LeavesFile(w, s, at)
  {
    if !InTick(s) {
      OutsideTick(w, s, v);
    }
  }

  lemma LeftBeforeStep(ws: seq<World>, steps: seq<Step>, n: nat, at: nat)
    requires n < |steps| && n < |ws|
    ensures LeftBefore(ws, steps, n + 1, at) <==> LeftBefore(ws, steps, n, at) || LeavesFile(ws[n], steps[n], at)
  {}

  /** Left on file means exactly that: a step failed to unlink it. */
  lemma {:induction false} LeftExactly(ws: seq<World>, steps: seq<Step>, n: nat, at: nat)
    requires IsRun(ws, steps) && n < |ws|
    ensures at in ws[n].inbox.left <==> LeftBefore(ws, steps, n, at)
  {
    if n > 0 {
      LeftExactly(ws, steps, n - 1, at);
      LeftStep(ws[n - 1], steps[n - 1], ws[n], at);
      LeftBeforeStep(ws, steps, n - 1, at);
    }
  }

  /** Whatever the stamps, an event published only after another was listed is delivered after it. */
  lemma PublishedLaterDeliveredLater(ws: seq<World>, steps: seq<Step>, n: nat, i: nat, j: nat, a: Taken, b: Taken)
    returns (m: nat, l: nat)
    requires IsRun(ws, steps) && n < |ws| && IsDelivery(ws[n], i, a) && IsDelivery(ws[n], j, b) && i != j
    ensures l < n && TookFrom(ws, steps, m, l, a)
    ensures b.event !in ws[m].inbox.published ==> i < j
  {
    m, l := TakenWhen(ws, steps, n, ws[n].outbox.delivered[i]);
    InvAlong(ws, steps, n);
    ListedKnown(ws[n], i, a);
    DeliveryOrder(ws[n], i, j, a, b);
    DeliveredEvent(ws, steps, n, j, b, a, m, l);
  }

  // ---------------------------------------------------------------- results handed over

  /** A result is handed to a consuming reader only as the answer to that event, and no more than thirty seconds old. */
  lemma HandedFresh(ws: seq<World>, steps: seq<Step>, n: nat, i: nat)
    requires IsRun(ws, steps) && n < |ws| && i < |ws[n].outbox.handed|
    ensures IsAnswer(ws[n].outbox.resolved, ws[n].outbox.handed[i].serial, ws[n].outbox.handed[i].id)
            && ws[n].outbox.handed[i].age <= 30.0
  {
    InvAlong(ws, steps, n);
    assert HandedKnown(ws[n].outbox.handed[i], ws[n].outbox.resolved);
  }

  /** The step returns this answer to a consuming reader. */
  predicate HandsOver(w: World, s: Step, serial: nat) {
    Hands(w, s) && w.outbox.readers[s.reader].serial == serial
  }

  predicate Hands(w: World, s: Step) {
    s.Leave? && s.reader in w.outbox.readers && w.outbox.readers[s.reader].Leaving? && w.outbox.readers[s.reader].age.Some?
  }

  /** What the reader holds at n it read at m. */
  ghost predicate ReadSince(ws: seq<World>, steps: seq<Step>, m: nat, n: nat, r: nat) {
    && m < n < |ws| && m < |steps| && r in ws[n].outbox.readers && steps[m].Look? && steps[m].reader == r
    && steps[m].id == ws[n].outbox.readers[r].id && steps[m].id in ws[m].outbox.results
    && ws[n].outbox.readers[r].serial == SerialOf(ws[m].outbox.serials, steps[m].id)
    && ws[n].outbox.readers[r].result == ws[m].outbox.results[steps[m].id]
    && (ws[n].outbox.readers[r].Looking? ==> ws[n].outbox.readers[r].consume == steps[m].consume)
  }

  /** The reader goes on with what it has read, or has just read it. */
  ghost predicate ReaderGoesOn(w: World, s: Step, v: World, r: nat)
    requires r in v.outbox.readers
  {
    if r in w.outbox.readers
    then
      && v.outbox.readers[r].id == w.outbox.readers[r].id && v.outbox.readers[r].serial == w.outbox.readers[r].serial
      && v.outbox.readers[r].result == w.outbox.readers[r].result
      && (v.outbox.readers[r].Looking? ==> v.outbox.readers[r] == w.outbox.readers[r])
    else
      && s.Look? && s.reader == r && s.id in w.outbox.results
      && v.outbox.readers[r] == Looking(s.id, s.consume, w.outbox.results[s.id], SerialOf(w.outbox.serials, s.id))
  }

  lemma JudgeContinues(w: World, q: nat, v: World, r: nat)
    requires Enabled(w, Judge(q)) && v == AfterJudge(w, q) && r in v.outbox.readers
    ensures r in w.outbox.readers && ReaderGoesOn(w, Judge(q), v, r)
  {}

  lemma ReaderStep(w: World, s: Step, v: World, r: nat)
    requires Enabled(w, s) && v == Next(w, s) && r in v.outbox.readers && ByReader(s)
    ensures ReaderGoesOn(w, s, v, r)
  {
    if s.Judge? {
      JudgeContinues(w, s.reader, v, r);
    }
  }

  lemma ReaderContinues(w: World, s: Step, v: World, r: nat)
    requires Enabled(w, s) && v == Next(w, s) && r in v.outbox.readers
    ensures ReaderGoesOn(w, s, v, r)
  {
    if ByReader(s) {
      ReaderStep(w, s, v, r);
    } else {
      OutsideReaders(w, s, v);
    }
  }

  lemma {:induction false} ReadWhen(ws: seq<World>, steps: seq<Step>, n: nat, r: nat) returns (m: nat)
    requires IsRun(ws, steps) && n < |ws| && r in ws[n].outbox.readers
    ensures ReadSince(ws, steps, m, n, r)
  {
    ReaderContinues(ws[n - 1], steps[n - 1], ws[n], r);
    if r in ws[n - 1].outbox.readers {
      m := ReadWhen(ws, steps, n - 1, r);
    } else {
      m := n - 1;
    }
  }

  /** The log of hand-overs grows by this step's hand-over, or not at all. */
  ghost predicate HandStep(w: World, s: Step, v: World) {
    && (!Hands(w, s) ==> v.outbox.handed == w.outbox.handed)
    && (Hands(w, s) ==>
          && |v.outbox.handed| == |w.outbox.handed| + 1 && w.outbox.handed <= v.outbox.handed
          && v.outbox.handed[|w.outbox.handed|].serial == w.outbox.readers[s.reader].serial)
  }

  lemma HandsOverOne(w: World, s: Step, v: World)
    requires Enabled(w, s) && v == Next(w, s)
    ensures HandStep(w, s, v)
  {
    if !ByReader(s) {
      OutsideReaders(w, s, v);
    }
  }

  ghost predicate HandSteps(ws: seq<World>, steps: seq<Step>) {
    |ws| == |steps| + 1 && forall n {:trigger steps[n]} :: 0 <= n < |steps| ==> HandStep(ws[n], steps[n], ws[n + 1])
  }

  lemma RunHands(ws: seq<World>, steps: seq<Step>)
    requires IsPath(ws, steps)
    ensures HandSteps(ws, steps)
  {
    forall n | 0 <= n < |steps| ensures HandStep(ws[n], steps[n], ws[n + 1]) {
      HandsOverOne(ws[n], steps[n], ws[n + 1]);
    }
  }

  ghost predicate InTail(handed: seq<Handed>, from: nat, serial: nat) {
    exists k :: from <= k < |handed| && handed[k].serial == serial
  }

  lemma TailGrows(handed: seq<Handed>, longer: seq<Handed>, from: nat, serial: nat)
    requires from <= |handed| && |longer| == |handed| + 1 && handed <= longer
    ensures InTail(longer, from, serial) <==> InTail(handed, from, serial) || longer[|handed|].serial == serial
  {
    if k :| from <= k < |handed| && handed[k].serial == serial {
      assert longer[k].serial == serial;
    }
  }

  ghost predicate HandedBetween(ws: seq<World>, steps: seq<Step>, m: nat, n: nat, serial: nat)
    requires n <= |steps| && n <= |ws|
  {
    exists l :: m <= l < n && HandsOver(ws[l], steps[l], serial)
  }

  lemma HandedBetweenStep(ws: seq<World>, steps: seq<Step>, m: nat, n: nat, serial: nat)
    requires m <= n < |steps| && n < |ws|
    ensures HandedBetween(ws, steps, m, n + 1, serial) <==>
            HandedBetween(ws, steps, m, n, serial) || HandsOver(ws[n], steps[n], serial)
  {}

  /** The hand-overs logged between two points are those of the steps in between. */
  lemma {:induction false} HandedLogged(ws: seq<World>, steps: seq<Step>, m: nat, n: nat, serial: nat)
    requires HandSteps(ws, steps) && m <= n < |ws|
    ensures |ws[m].outbox.handed| <= |ws[n].outbox.handed|
    ensures InTail(ws[n].outbox.handed, |ws[m].outbox.handed|, serial) <==> HandedBetween(ws, steps, m, n, serial)
  {
    if m < n {
      HandedLogged(ws, steps, m, n - 1, serial);
      HandedBetweenStep(ws, steps, m, n - 1, serial);
      if Hands(ws[n - 1], steps[n - 1]) {
        TailGrows(ws[n - 1].outbox.handed, ws[n].outbox.handed, |ws[m].outbox.handed|, serial);
      }
    }
  }

  /** The step hands this answer out and fails to unlink it. */
  predicate FailsToRemove(w: World, s: Step, serial: nat) {
    HandsOver(w, s, serial) && !s.unlinked && Lingers(w, w.outbox.readers[s.reader])
  }

  ghost predicate KeptBefore(ws: seq<World>, steps: seq<Step>, n: nat, serial: nat)
    requires n <= |steps| && n <= |ws|
  {
    exists l :: 0 <= l < n && FailsToRemove(ws[l], steps[l], serial)
  }

  lemma KeptBeforeStep(ws: seq<World>, steps: seq<Step>, n: nat, serial: nat)
    requires n < |steps| && n < |ws|
    ensures KeptBefore(ws, steps, n + 1, serial) <==> KeptBefore(ws, steps, n, serial) || FailsToRemove(ws[n], steps[n], serial)
  {}

  lemma LingerStep(w: World, s: Step, v: World, serial: nat)
    requires Enabled(w, s) && v == Next(w, s)
    ensures serial in v.outbox.lingering <==> serial in w.outbox.lingering || FailsToRemove(w, s, serial)
  {
    if !ByReader(s) {
      OutsideReaders(w, s, v);
    }
  }

  lemma {:induction false} LingeringExactly(ws: seq<World>, steps: seq<Step>, n: nat, serial: nat)
    requires IsRun(ws, steps) && n < |ws|
    ensures serial in ws[n].outbox.lingering <==> KeptBefore(ws, steps, n, serial)
  {
    if n > 0 {
      LingeringExactly(ws, steps, n - 1, serial);
      LingerStep(ws[n - 1], steps[n - 1], ws[n], serial);
      KeptBeforeStep(ws, steps, n - 1, serial);
    }
  }

  /** What is on file and was handed out before could not be unlinked then. */
  lemma OnFileAfterHanded(ws: seq<World>, steps: seq<Step>, m: nat, id: string)
    requires IsRun(ws, steps) && m < |ws| && id in ws[m].outbox.results
             && InTail(ws[m].outbox.handed, 0, SerialOf(ws[m].outbox.serials, id))
    ensures KeptBefore(ws, steps, m, SerialOf(ws[m].outbox.serials, id))
  {
    InvAlong(ws, steps, m);
    assert id in ws[m].outbox.results.Keys;
    assert !NotHanded(ws[m].outbox.handed, SerialOf(ws[m].outbox.serials, id));
    LingeringExactly(ws, steps, m, SerialOf(ws[m].outbox.serials, id));
  }

  lemma HandedFromStart(ws: seq<World>, steps: seq<Step>, n: nat, serial: nat)
    requires IsRun(ws, steps) && n < |ws|
    ensures InTail(ws[n].outbox.handed, 0, serial) <==> HandedBetween(ws, steps, 0, n, serial)
  {
    RunHands(ws, steps);
    HandedLogged(ws, steps, 0, n, serial);
  }

  lemma BetweenSplits(ws: seq<World>, steps: seq<Step>, m: nat, n: nat, serial: nat)
    requires m < n <= |steps| && n <= |ws| && !steps[m].Leave?
    ensures HandedBetween(ws, steps, 0, n, serial) <==>
            HandedBetween(ws, steps, 0, m, serial) || HandedBetween(ws, steps, m + 1, n, serial)
  {}

  /**
   An answer is handed over although it already was if and only if another consuming reader handed it out between this
   reader's read and its own unlink, or one did before that and failed to unlink it.
   */
  lemma HandedAgainExactly(ws: seq<World>, steps: seq<Step>, n: nat, serial: nat) returns (m: nat)
    requires IsRun(ws, steps) && n < |steps| && HandsOver(ws[n], steps[n], serial)
    ensures ReadSince(ws, steps, m, n, steps[n].reader)
    ensures InTail(ws[n].outbox.handed, 0, serial) <==>
            HandedBetween(ws, steps, m + 1, n, serial) || KeptBefore(ws, steps, m, serial)
  {
    m := ReadWhen(ws, steps, n, steps[n].reader);
    HandedFromStart(ws, steps, n, serial);
    HandedFromStart(ws, steps, m, serial);
    BetweenSplits(ws, steps, m, n, serial);
    if InTail(ws[m].outbox.handed, 0, serial) {
      OnFileAfterHanded(ws, steps, m, steps[m].id);
    }
  }

  // ---------------------------------------------------------------- user control

  /** Between m and n the request was taken out of control and not put back. */
  ghost predicate TakenOut(steps: seq<Step>, m: nat, n: nat, request: string)
    requires n <= |steps|
  {
    exists k :: m <= k < n && Removes(steps, k, n, request)
  }

  ghost predicate Removes(steps: seq<Step>, k: nat, n: nat, request: string)
    requires k < n <= |steps|
  {
    && steps[k].ControlChanges? && request !in steps[k].requests
    && forall j :: k < j < n && steps[j].ControlChanges? ==> request !in steps[j].requests
  }

  lemma TakenOutStep(steps: seq<Step>, m: nat, l: nat, n: nat, request: string)
    requires m <= l < |steps| && n == l + 1
    ensures TakenOut(steps, m, n, request) <==>
            if steps[l].ControlChanges? then request !in steps[l].requests else TakenOut(steps, m, l, request)
  {
    if steps[l].ControlChanges? && request !in steps[l].requests {
      assert Removes(steps, l, n, request);
    } else if !steps[l].ControlChanges? && TakenOut(steps, m, l, request) {
      var k :| m <= k < l && Removes(steps, k, l, request);
      assert Removes(steps, k, n, request);
    }
    if k :| m <= k < l && Removes(steps, k, n, request) {
      assert Removes(steps, k, l, request);
    }
  }

  lemma ControlStep(w: World, s: Step, v: World)
    requires Enabled(w, s) && v == Next(w, s)
    ensures v.inControl == if s.ControlChanges? then s.requests else w.inControl
  {}

  lemma {:induction false} ControlSince(ws: seq<World>, steps: seq<Step>, m: nat, n: nat, request: string)
    requires IsRun(ws, steps) && m <= n < |ws| && request in ws[m].inControl
    ensures request in ws[n].inControl <==> !TakenOut(steps, m, n, request)
  {
    if m < n {
      ControlSince(ws, steps, m, n - 1, request);
      ControlStep(ws[n - 1], steps[n - 1], ws[n]);
      TakenOutStep(steps, m, n - 1, n, request);
    }
  }

  /** The first event held was checked at m, and found in user control then. */
  ghost predicate CheckedAt(ws: seq<World>, steps: seq<Step>, m: nat, n: nat) {
    && m < n < |ws| && m < |steps| && steps[m].Check? && ws[n].phase.Applying? && ws[n].phase.left != []
    && ws[m].phase.Applying? && ws[m].phase.left == ws[n].phase.left && ws[n].phase.left[0].request in ws[m].inControl
    && forall k :: m < k <= n ==> ws[k].phase == ws[n].phase
  }

  lemma ToDriveContinues(w: World, s: Step, v: World)
    requires Enabled(w, s) && v == Next(w, s) && v.phase.Applying? && v.phase.stage.ToDrive?
    ensures s.Check? ==>
              w.phase.Applying? && w.phase.left == v.phase.left && w.phase.left != [] && w.phase.left[0].request in w.inControl
    ensures !s.Check? ==> w.phase == v.phase
  {
    if !InTick(s) {
      OutsideTick(w, s, v);
    }
  }

  lemma {:induction false} CheckedWhen(ws: seq<World>, steps: seq<Step>, n: nat) returns (m: nat)
    requires IsRun(ws, steps) && n < |ws| && ws[n].phase.Applying? && ws[n].phase.stage.ToDrive? && ws[n].phase.left != []
    ensures CheckedAt(ws, steps, m, n)
  {
    ToDriveContinues(ws[n - 1], steps[n - 1], ws[n]);
    if steps[n - 1].Check? {
      m := n - 1;
    } else {
      m := CheckedWhen(ws, steps, n - 1);
    }
  }

  /**
   Every delivery follows a check of that very event that found its request in user control; and the request is
   still in control at the delivery if and only if it was not taken out, and not put back, since that check.
   */
  lemma DeliveredUnderControlExactly(ws: seq<World>, steps: seq<Step>, n: nat) returns (m: nat)
    requires IsRun(ws, steps) && n < |steps| && steps[n].Drive?
    ensures CheckedAt(ws, steps, m, n)
    ensures ws[n].phase.left[0].request in ws[n].inControl <==> !TakenOut(steps, m, n, ws[n].phase.left[0].request)
  {
    m := CheckedWhen(ws, steps, n);
    ControlSince(ws, steps, m, n, ws[n].phase.left[0].request);
  }

  /** And nothing reaches the browser but by such a step. */
  lemma OnlyDriveDelivers(w: World, s: Step, v: World)
    requires Pipeline(w) && Enabled(w, s) && v == Next(w, s) && v.outbox.delivered != w.outbox.delivered
    ensures s.Drive? && |w.outbox.resolved| < |w.inbox.consumed| && v.outbox.delivered == w.outbox.delivered + [|w.outbox.resolved|]
    ensures w.inbox.consumed[|w.outbox.resolved|].event == w.phase.left[0]
  {
    if !InTick(s) {
      OutsideTick(w, s, v);
    }
    assert w.phase.left[0] == w.inbox.consumed[|w.outbox.resolved| + 0].event;
  }

  // ---------------------------------------------------------------- runs that show the conditions are needed

  lemma Extend(ws: seq<World>, steps: seq<Step>, s: Step)
    requires IsRun(ws, steps) && Enabled(ws[|steps|], s)
    ensures IsRun(ws + [Next(ws[|steps|], s)], steps + [s])
  {}

  /** A tick appended to a run. */
  lemma ExtendByTick(ws: seq<World>, steps: seq<Step>, stuck: set<string>, b: Browser, before: seq<Payload>)
    returns (ws': seq<World>, steps': seq<Step>, v: World)
    requires IsRun(ws, steps) && ws[|steps|].phase.Idle? && HasReached(ws[|steps|], before)
    ensures IsRun(ws', steps') && steps <= steps' && v == ws'[|steps'|] && v == Tick(ws[|steps|], stuck, b)
    ensures var w := ws[|steps|];
            var events := Payloads(Sorted(w.inbox.inputs.Keys), Contents(w.inbox.inputs));
            && OnlyTicked(w, v)
            && v.inbox.inputs == StuckOf(w.inbox.inputs, stuck)
              && v.outbox.results == Answered(w.outbox.results, events, w.inControl, b, w.clock)
            && HasReached(v, before + Reached(events, w.inControl, b))
  {
    var w := ws[|steps|];
    InvAlong(ws, steps, |steps|);
    v := Tick(w, stuck, b);
    var more, moreSteps := TickPath(w, stuck, b);
    ws', steps' := ws + more[1..], steps + moreSteps;
    Join(ws, steps, more, moreSteps);
    TickFacts(w, stuck, b, v, before);
  }

  lemma JoinAt(ws: seq<World>, steps: seq<Step>, more: seq<World>, moreSteps: seq<Step>, n: nat)
    requires IsPath(ws, steps) && IsPath(more, moreSteps) && more[0] == ws[|steps|] && n < |steps + moreSteps|
    ensures var all, s := ws + more[1..], (steps + moreSteps)[n];
            Enabled(all[n], s) && all[n + 1] == Next(all[n], s)
  {
    var all, s := ws + more[1..], (steps + moreSteps)[n];
    if n < |steps| {
      assert s == steps[n] && all[n] == ws[n] && all[n + 1] == ws[n + 1];
    } else {
      var k := n - |steps|;
      assert s == moreSteps[k] && all[n] == more[k] && all[n + 1] == more[k + 1];
    }
  }

  lemma Join(ws: seq<World>, steps: seq<Step>, more: seq<World>, moreSteps: seq<Step>)
    requires IsRun(ws, steps) && IsPath(more, moreSteps) && more[0] == ws[|steps|]
    ensures IsRun(ws + more[1..], steps + moreSteps)
    ensures (ws + more[1..])[|steps + moreSteps|] == more[|moreSteps|]
  {
    var all, allSteps := ws + more[1..], steps + moreSteps;
    forall n | 0 <= n < |allSteps| ensures Enabled(all[n], allSteps[n]) && all[n + 1] == Next(all[n], allSteps[n]) {
      JoinAt(ws, steps, more, moreSteps, n);
    }
  }

  const ACCEPTING := Browser((p: Payload) => true, (p: Payload) => true)

  lemma TwoNames(p: Payload, q: Payload)
    requires WellNamed(p) && WellNamed(q) && p.tag.stamp < q.tag.stamp
    ensures p.file != q.file && p.id != q.id && LexLess(p.file, q.file)
  {
    NameOrder(p.tag, q.tag);
    LexAsymmetric(p.file, q.file);
  }

  lemma OneFile(inputs: map<string, Filed>, p: Payload, k: nat)
    requires inputs == map[p.file := Filed(p, k)]
    ensures Payloads(Sorted(inputs.Keys), Contents(inputs)) == [p]
  {
    SortedUnique(Sorted(inputs.Keys), [p.file]);
    assert Payloads([p.file][1..], Contents(inputs)) == [];
  }

  /** Both events drawn, the earlier stamp first, and their requests in user control. */
  lemma BothDrawn(p: Payload, q: Payload) returns (ws: seq<World>, steps: seq<Step>)
    requires WellNamed(p) && WellNamed(q) && p.tag.stamp < q.tag.stamp
    ensures IsRun(ws, steps) && steps == [Draw(p), Draw(q), ControlChanges({p.request, q.request})]
    ensures ws[3] == START.(inbox := START.inbox.(drawn := {p} + {q}), inControl := {p.request, q.request})
  {
    TwoNames(p, q);
    var w1 := Next(START, Draw(p));
    var w2 := Next(w1, Draw(q));
    ws := [START, w1, w2, Next(w2, ControlChanges({p.request, q.request}))];
    steps := [Draw(p), Draw(q), ControlChanges({p.request, q.request})];
    assert {} + {p} + {q} == {p} + {q};
  }

  /**
   Stamp order fails when the condition does: one thread draws its name first and publishes its file only after
   a tick has taken the other's, so the browser gets the later stamp first.
   */
  lemma OutOfStampOrder(p: Payload, q: Payload) returns (ws: seq<World>, steps: seq<Step>)
    requires WellNamed(p) && WellNamed(q) && p.tag.stamp < q.tag.stamp
    ensures IsRun(ws, steps) && [Draw(p), Draw(q)] <= steps && HasReached(ws[|steps|], [q, p])
  {
    ws, steps := BothDrawn(p, q);
    TwoNames(p, q);
    ws, steps := PublishAndTick(ws, steps, q, []);
    assert [] + [q] == [q];
    ws, steps := PublishAndTick(ws, steps, p, [q]);
    assert [q] + [p] == [q, p];
  }

  /** With nothing pending, an event is published and a tick delivers it. */
  lemma PublishAndTick(ws0: seq<World>, steps0: seq<Step>, p: Payload, before: seq<Payload>) returns (ws: seq<World>,
                       steps: seq<Step>)
    requires IsRun(ws0, steps0)
    requires var w := ws0[|steps0|];
             && w.phase.Idle? && w.inbox.inputs == map[] && p in w.inbox.drawn && p !in w.inbox.published
               && p.request in w.inControl
             && HasReached(w, before)
    ensures IsRun(ws, steps) && steps0 <= steps
    ensures var w, v := ws0[|steps0|], ws[|steps|];
            && v.phase.Idle? && v.inbox.inputs == map[] && v.inbox.drawn == w.inbox.drawn
              && v.inbox.published == w.inbox.published + [p]
            && v.inControl == w.inControl && HasReached(v, before + [p])
  {
    var w := ws0[|steps0|];
    Extend(ws0, steps0, Publish(p));
    var u := Next(w, Publish(p));
    ws, steps := ws0 + [u], steps0 + [Publish(p)];
    OneFile(u.inbox.inputs, p, |w.inbox.published|);
    ReachedOne(p, u.inControl);
    var v;
    ws, steps, v := ExtendByTick(ws, steps, {}, ACCEPTING, before);
  }

  lemma ReachedOne(p: Payload, inControl: set<string>)
    requires p.request in inControl
    ensures Reached([p], inControl, ACCEPTING) == [p]
  {
    assert Reached([p][1..], inControl, ACCEPTING) == [];
  }

  lemma TwoFiles(inputs: map<string, Filed>, p: Payload, q: Payload, inControl: set<string>)
    requires WellNamed(p) && WellNamed(q) && p.tag.stamp < q.tag.stamp && p.request in inControl && q.request in inControl
    requires inputs == map[q.file := Filed(q, 0)][p.file := Filed(p, 1)]
    ensures Reached(Payloads(Sorted(inputs.Keys), Contents(inputs)), inControl, ACCEPTING) == [p, q]
  {
    TwoNames(p, q);
    SortedUnique(Sorted(inputs.Keys), [p.file, q.file]);
    assert [p.file, q.file][1..] == [q.file] && [q.file][1..] == [];
    assert Payloads([q.file], Contents(inputs)) == [q];
    assert Payloads([p.file, q.file], Contents(inputs)) == [p, q];
    assert [p, q][1..] == [q];
    ReachedOne(q, inControl);
  }

  lemma BothPublished(p: Payload, q: Payload) returns (ws: seq<World>, steps: seq<Step>)
    requires WellNamed(p) && WellNamed(q) && p.tag.stamp < q.tag.stamp
    ensures IsRun(ws, steps)
    ensures var w := ws[|steps|];
            && w.inbox.inputs == map[q.file := Filed(q, 0)][p.file := Filed(p, 1)] && w.inbox.published == [q, p]
            && w.inControl == {p.request, q.request} && w.phase.Idle? && w.outbox.delivered == []
  {
    ws, steps := BothDrawn(p, q);
    TwoNames(p, q);
    var w3 := ws[3];
    Extend(ws, steps, Publish(q));
    var w4 := Next(w3, Publish(q));
    ws, steps := ws + [w4], steps + [Publish(q)];
    Extend(ws, steps, Publish(p));
    ws, steps := ws + [Next(w4, Publish(p))], steps + [Publish(p)];
  }

  /** And publication order is not promised either: within one listing the stamps decide. */
  lemma OutOfPublicationOrder(p: Payload, q: Payload) returns (ws: seq<World>, steps: seq<Step>)
    requires WellNamed(p) && WellNamed(q) && p.tag.stamp < q.tag.stamp
    ensures IsRun(ws, steps) && ws[|steps|].inbox.published == [q, p] && HasReached(ws[|steps|], [p, q])
  {
    ws, steps := BothPublished(p, q);
    var w := ws[|steps|];
    TwoFiles(w.inbox.inputs, p, q, w.inControl);
    var v;
    ws, steps, v := ExtendByTick(ws, steps, {}, ACCEPTING, []);
    assert [] + [p, q] == [p, q];
  }

  // Two consuming readers of one result.

  lemma PublishedAlone(p: Payload, control: set<string>) returns (ws: seq<World>, steps: seq<Step>)
    requires WellNamed(p)
    ensures IsRun(ws, steps) && |steps| == 3
    ensures ws[3] == START.(inbox := START.inbox.(drawn := {p}, published := [p], inputs := map[p.file := Filed(p, 0)]),
            inControl := control)
  {
    var w1 := Next(START, Draw(p));
    var w2 := Next(w1, Publish(p));
    ws := [START, w1, w2, Next(w2, ControlChanges(control))];
    steps := [Draw(p), Publish(p), ControlChanges(control)];
    assert {} + {p} == {p} && [] + [p] == [p];
  }

  lemma BothReturn(ws0: seq<World>, steps0: seq<Step>, id: string) returns (ws: seq<World>, steps: seq<Step>)
    requires IsRun(ws0, steps0) && ws0[|steps0|].outbox.readers == map[] && ws0[|steps0|].outbox.handed == []
    requires id in ws0[|steps0|].outbox.results && !TooOld(ws0[|steps0|].outbox.results[id], ws0[|steps0|].clock)
    ensures IsRun(ws, steps) && |ws[|steps|].outbox.handed| == 2
    ensures ws[|steps|].outbox.handed[0].id == id && ws[|steps|].outbox.handed[0].serial == ws[|steps|].outbox.handed[1].serial
  {
    ws, steps := ws0, steps0;
    var w0 := ws[|steps|];
    Extend(ws, steps, Look(0, id, true));
    var w1 := Next(w0, Look(0, id, true));
    ws, steps := ws + [w1], steps + [Look(0, id, true)];
    Extend(ws, steps, Look(1, id, true));
    var w2 := Next(w1, Look(1, id, true));
    ws, steps := ws + [w2], steps + [Look(1, id, true)];
    ws, steps := BothLeave(ws, steps, id);
  }

  lemma BothLeave(ws0: seq<World>, steps0: seq<Step>, id: string) returns (ws: seq<World>, steps: seq<Step>)
    requires IsRun(ws0, steps0)
    requires var w := ws0[|steps0|];
             && w.outbox.handed == [] && 0 in w.outbox.readers && 1 in w.outbox.readers
             && w.outbox.readers[0].serial == w.outbox.readers[1].serial
             && forall r :: 0 <= r < 2 ==>
                  && w.outbox.readers[r].Looking? && w.outbox.readers[r].id == id && w.outbox.readers[r].consume
                  && !TooOld(w.outbox.readers[r].result, w.clock)
    ensures IsRun(ws, steps) && |ws[|steps|].outbox.handed| == 2
    ensures ws[|steps|].outbox.handed[0].id == id && ws[|steps|].outbox.handed[0].serial == ws[|steps|].outbox.handed[1].serial
  {
    ws, steps := ws0, steps0;
    var w0 := ws[|steps|];
    Extend(ws, steps, Judge(0));
    var w1 := Next(w0, Judge(0));
    ws, steps := ws + [w1], steps + [Judge(0)];
    Extend(ws, steps, Judge(1));
    var w2 := Next(w1, Judge(1));
    ws, steps := ws + [w2], steps + [Judge(1)];
    Extend(ws, steps, Leave(0, true));
    var w3 := Next(w2, Leave(0, true));
    ws, steps := ws + [w3], steps + [Leave(0, true)];
    Extend(ws, steps, Leave(1, true));
    var w4 := Next(w3, Leave(1, true));
    ws, steps := ws + [w4], steps + [Leave(1, true)];
  }

  /** Handing over at most once fails when the condition does: both readers read before either unlinks. */
  lemma HandedTwice(p: Payload) returns (ws: seq<World>, steps: seq<Step>)
    requires WellNamed(p)
    ensures IsRun(ws, steps) && |ws[|steps|].outbox.handed| == 2
    ensures ws[|steps|].outbox.handed[0].id == p.id && ws[|steps|].outbox.handed[0].serial == ws[|steps|].outbox.handed[1].serial
  {
    ws, steps := PublishedAlone(p, {});
    var w := ws[3];
    OneFile(w.inbox.inputs, p, 0);
    var v;
    ws, steps, v := ExtendByTick(ws, steps, {}, ACCEPTING, []);
    AnsweredOwn(w.outbox.results, [p], w.inControl, ACCEPTING, w.clock, 0);
    ws, steps := BothReturn(ws, steps, p.id);
  }

  // A file that cannot be unlinked.

  /** Delivery at most once fails when an unlink does: two ticks deliver the same event. */
  lemma DeliveredTwice(p: Payload) returns (ws: seq<World>, steps: seq<Step>)
    requires WellNamed(p)
    ensures IsRun(ws, steps) && ws[|steps|].inbox.published == [p] && HasReached(ws[|steps|], [p, p])
            && ws[|steps|].inbox.inputs == map[]
  {
    ws, steps := PublishedAlone(p, {p.request});
    var w := ws[3];
    OneFile(w.inbox.inputs, p, 0);
    ReachedOne(p, w.inControl);
    var u, v;
    ws, steps, u := ExtendByTick(ws, steps, {p.file}, ACCEPTING, []);
    assert u.inbox.inputs == w.inbox.inputs;
    assert [] + [p] == [p];
    ws, steps, v := ExtendByTick(ws, steps, {}, ACCEPTING, [p]);
    assert [p] + [p] == [p, p];
    assert v.inbox.inputs == map[];
  }

  // A request released between check and delivery.

  lemma TakenAlone(p: Payload) returns (ws: seq<World>, steps: seq<Step>)
    requires WellNamed(p)
    ensures IsRun(ws, steps)
    ensures var w := ws[|steps|];
            && w.phase == Taking([p.file], 1, Held(0), [p]) && p.file in w.inbox.inputs && w.inControl == {p.request}
            && w.outbox.delivered == [] && w.outbox.resolved == []
  {
    ws, steps := PublishedAlone(p, {p.request});
    var w3 := ws[3];
    SortedUnique(Sorted(w3.inbox.inputs.Keys), [p.file]);
    Extend(ws, steps, BeginTick);
    var w4 := Next(w3, BeginTick);
    ws, steps := ws + [w4], steps + [BeginTick];
    Extend(ws, steps, ReadFile(true));
    ws, steps := ws + [Next(w4, ReadFile(true))], steps + [ReadFile(true)];
  }

  lemma HeldAlone(p: Payload) returns (ws: seq<World>, steps: seq<Step>)
    requires WellNamed(p)
    ensures IsRun(ws, steps) && ws[|steps|].phase == Applying([p], ToCheck) && ws[|steps|].inControl == {p.request}
    ensures ws[|steps|].outbox.delivered == [] && ws[|steps|].outbox.resolved == []
  {
    ws, steps := TakenAlone(p);
    var w := ws[|steps|];
    Extend(ws, steps, Unlink(true));
    var v := Next(w, Unlink(true));
    ws, steps := ws + [v], steps + [Unlink(true)];
    Extend(ws, steps, EndTaking);
    ws, steps := ws + [Next(v, EndTaking)], steps + [EndTaking];
  }

  /** Delivery outside user control does happen: the request is released between the check and the delivery. */
  lemma ReleasedAfterCheck(p: Payload) returns (ws: seq<World>, steps: seq<Step>)
    requires WellNamed(p)
    ensures IsRun(ws, steps) && |steps| >= 1 && steps[|steps| - 1] == Drive(true)
    ensures var w := ws[|steps| - 1]; w.phase == Applying([p], ToDrive) && p.request !in w.inControl
    ensures |ws[|steps|].outbox.delivered| == 1
  {
    ws, steps := HeldAlone(p);
    var w0 := ws[|steps|];
    Extend(ws, steps, Check(true));
    var w1 := Next(w0, Check(true));
    ws, steps := ws + [w1], steps + [Check(true)];
    Extend(ws, steps, ControlChanges({}));
    var w2 := Next(w1, ControlChanges({}));
    ws, steps := ws + [w2], steps + [ControlChanges({})];
    Extend(ws, steps, Drive(true));
    ws, steps := ws + [Next(w2, Drive(true))], steps + [Drive(true)];
  }
}
