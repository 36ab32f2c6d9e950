/**
 What becomes of a heartbeat run's promises when other things happen between its sections, and what the sections
 amount to when nothing does.
 */
module HeartbeatOverlap {
  import opened Prelude
  import opened HeartbeatRunner
  import opened HeartbeatSections
  import H = Heartbeat
  import C = Chat
  import S = ChatStore

  // ---------------------------------------------------------------- the gate and the task taken

  /** A task that was peeked at and is still there may interrupt exactly if it could then. */
  ghost predicate SameFlag(run: Run, q: H.Queue, known: set<string>) {
    Looking(run.phase) && run.phase.pending.Some? ==>
      var p := run.phase.pending.value;
      p.id in known && (p.id in q.tasks ==> q.tasks[p.id].interruptActive == p.interruptActive)
  }

  ghost predicate Flags(w: World) {
    && Valid(w.runner) && w.runner.queue.tasks.Keys <= w.known
    && forall t :: t in w.runs ==> SameFlag(w.runs[t], w.runner.queue, w.known)
  }

  lemma QueueFlags(q: H.Queue, now: real)
    requires H.Valid(q)
    ensures H.Next(q, now).tasks.Keys == q.tasks.Keys
    ensures forall id :: id in q.tasks ==> H.Next(q, now).tasks[id].interruptActive == q.tasks[id].interruptActive
  {
    H.NextFrame(q, now);
  }

  lemma GoTouches(w: World, t: nat, format: Format, v: World)
    requires Follows(w, Go(t), format, v)
    ensures v.known == w.known && v.clock == w.clock && v.runs.Keys == w.runs.Keys
    ensures forall u :: u in w.runs && u != t ==> v.runs[u] == w.runs[u]
    ensures v.runner.queue == if w.runs[t].phase.Clear? then H.Next(w.runner.queue, w.runs[t].i.now) else w.runner.queue
    ensures v.runner.config == if w.runs[t].phase.Saving? then w.runs[t].phase.saved else w.runner.config
  {}

  /** Moving a run on leaves every task that is there, with its flag. */
  lemma GoQueue(w: World, t: nat, format: Format, v: World)
    requires Follows(w, Go(t), format, v)
    ensures v.known == w.known && v.runner.queue.tasks.Keys == w.runner.queue.tasks.Keys
    ensures forall id :: id in w.runner.queue.tasks ==>
              id in v.runner.queue.tasks && v.runner.queue.tasks[id].interruptActive == w.runner.queue.tasks[id].interruptActive
    ensures v.runs.Keys == w.runs.Keys && forall u :: u in w.runs && u != t ==> v.runs[u] == w.runs[u]
  {
    GoTouches(w, t, format, v);
    QueueFlags(w.runner.queue, w.runs[t].i.now);
  }

  lemma PeekFlag(run: Run, q: H.Queue, known: set<string>, phase: Phase)
    requires H.Valid(q) && q.tasks.Keys <= known && Looking(phase) && phase.pending == Peek(q, run.i.now)
    ensures SameFlag(run.(phase := phase), q, known)
  {
    H.ChooseKnown(q, run.i.now);
  }

  lemma LookFlag(run: Run, r: Runner, known: set<string>)
    requires Valid(r) && IsLook(run.phase) && r.queue.tasks.Keys <= known && SameFlag(run, r.queue, known)
    ensures SameFlag(run.(phase := Looked(run, Look(run, r))), r.queue, known)
  {
    var found := Look(run, r);
    LookedKind(run, found);
    LookFinds(run, r);
    if run.phase.Loaded? && Looking(Looked(run, found)) {
      PeekFlag(run, r.queue, known, Looked(run, found));
    }
  }

  lemma GoFlags(w: World, t: nat, format: Format, v: World)
    requires Flags(w) && Follows(w, Go(t), format, v)
    ensures t in v.runs && SameFlag(v.runs[t], v.runner.queue, v.known)
  {
    if IsLook(w.runs[t].phase) {
      Moves(w, t, format, v);
      LookFlag(w.runs[t], w.runner, w.known);
    }
  }

  lemma StepFlags(w: World, s: Step, format: Format, v: World)
    requires Flags(w) && Follows(w, s, format, v)
    ensures Flags(v)
  {
    StepValid(w, s, format, v);
    if s.Go? {
      GoQueue(w, s.run, format, v);
      GoFlags(w, s.run, format, v);
    }
  }

  lemma {:induction false} FlagsAlong(ws: seq<World>, steps: seq<Step>, format: Format, n: nat)
    requires IsRun(ws, steps, format) && n < |ws|
    ensures Flags(ws[n])
  {
    if n > 0 {
      FlagsAlong(ws, steps, format, n - 1);
      StepFlags(ws[n - 1], steps[n - 1], format, ws[n]);
    }
  }

  lemma TakenFlag(w: World, t: nat, v: World)
    requires Flags(w) && t in w.runs && w.runs[t].phase.Clear? && v == AfterConsume(w, t)
    requires v.runs[t].phase.Holding? && TaskId(v.runs[t].phase.task) == TaskId(w.runs[t].phase.pending)
    ensures w.runs[t].phase.pending.Some? ==>
              v.runs[t].phase.task.Some? && v.runs[t].phase.task.value.interruptActive == w.runs[t].phase.pending.value.interruptActive
  {
    ConsumePhase(w, t, v);
    TakingFacts(w.runner.queue, w.runs[t].i);
    H.ChooseKnown(w.runner.queue, w.runs[t].i.now);
    assert SameFlag(w.runs[t], w.runner.queue, w.known);
  }

  /**
   When an unforced run takes the task it peeked at, the gate has done its work: the task may interrupt, or the
   chat was scanned and found quiet.
   */
  lemma SamePickIsGated(ws: seq<World>, steps: seq<Step>, format: Format, n: nat, t: nat) returns (a: nat, b: nat, c: nat)
    requires IsRun(ws, steps, format) && n < |steps| && steps[n] == Go(t) && t in ws[n].runs && t in ws[n + 1].runs
    requires ws[n].runs[t].phase.Clear? && !ws[n].runs[t].i.force && ws[n + 1].runs[t].phase.Holding?
    requires TaskId(ws[n + 1].runs[t].phase.task) == TaskId(ws[n].runs[t].phase.pending)
    ensures var task := ws[n + 1].runs[t].phase.task;
            (task.Some? && task.value.interruptActive) || ScannedAt(ws, a, b, c, n, ws[n].runs[t].i, ws[n].runs[t].loaded.minIdle)
  {
    a, b, c := ClearMeans(ws, steps, format, n, t);
    FlagsAlong(ws, steps, format, n);
    assert Follows(ws[n], steps[n], format, ws[n + 1]);
    TakenFlag(ws[n], t, ws[n + 1]);
  }

  // A task that was never gated.

  function OnlyTask(id: string, interrupts: bool, now: real): H.Queue {
    H.Queue([id], map[id := H.Task(id, "x", "", true, 1, H.Meta("", "", "", "", "", ""), None, None, interrupts, now, now, None, 0)], 0)
  }

  lemma OnlyTaskPicked(id: string, interrupts: bool, now: real)
    ensures H.Valid(OnlyTask(id, interrupts, now)) && H.Pick(OnlyTask(id, interrupts, now), now) == Some(id)
  {
    H.PickOnly(OnlyTask(id, interrupts, now), id, now);
  }

  function FreshConfig(lastTriggered: Option<real>): Config {
    Config(true, 1.0, 0.0, "", lastTriggered, None, None, None, None)
  }

  lemma Extend(ws: seq<World>, steps: seq<Step>, format: Format, s: Step)
    requires IsRun(ws, steps, format) && Valid(ws[|steps|].runner) && Enabled(ws[|steps|], s)
    ensures IsRun(ws + [Next(ws[|steps|], s, format)], steps + [s], format)
  {
    var v := Next(ws[|steps|], s, format);
    assert Follows(ws[|steps|], s, format, v);
  }

  /** The run has loaded the settings and peeked at a task that may interrupt; the chat has not been looked at. */
  lemma PeekedInterrupt(chat: C.Store, i: Input, format: Format) returns (ws: seq<World>, steps: seq<Step>)
    requires C.Valid(chat) && !i.force && i.now >= 0.0
    ensures IsRun(ws, steps, format) && steps == [Load(0, i), Go(0)]
    ensures ws[2].runner == Runner(FreshConfig(None), OnlyTask("a", true, i.now), chat) && ws[2].known == {"a"}
    ensures ws[2].runs == map[0 := Run(i, FreshConfig(None), Clear(Peek(OnlyTask("a", true, i.now), i.now)))]
    ensures forall k :: 0 <= k < 3 ==> ws[k].runner.chat == chat
  {
    OnlyTaskPicked("a", true, i.now);
    var w0 := World(Runner(FreshConfig(None), OnlyTask("a", true, i.now), chat), 0.0, {}, {"a"}, map[], []);
    ws, steps := [w0], [];
    Extend(ws, steps, format, Load(0, i));
    var w1 := Next(w0, Load(0, i), format);
    ws, steps := ws + [w1], steps + [Load(0, i)];
    Extend(ws, steps, format, Go(0));
    ws, steps := ws + [Next(w1, Go(0), format)], steps + [Go(0)];
  }

  lemma OtherTaskTaken(ws0: seq<World>, steps0: seq<Step>, i: Input, format: Format) returns (ws: seq<World>, steps: seq<Step>)
    requires IsRun(ws0, steps0, format) && 0 in ws0[|steps0|].runs
    requires var w := ws0[|steps0|];
             && w.runner.queue == OnlyTask("b", false, i.now) && w.runs[0].i == i
             && w.runs[0].phase.Clear? && w.runs[0].phase.pending.Some? && C.Valid(w.runner.chat)
    ensures IsRun(ws, steps, format) && steps == steps0 + [Go(0)] && ws == ws0 + [ws[|steps|]]
    ensures var v := ws[|steps|];
            && 0 in v.runs && v.runs[0].i == i && v.runs[0].phase.Holding? && TaskId(v.runs[0].phase.task) == Some("b")
            && !v.runs[0].phase.task.value.interruptActive && v.runner.chat == ws0[|steps0|].runner.chat
  {
    var w := ws0[|steps0|];
    OnlyTaskPicked("b", false, i.now);
    TakingFacts(w.runner.queue, i);
    Extend(ws0, steps0, format, Go(0));
    var v := Next(w, Go(0), format);
    ConsumePhase(w, 0, v);
    ws, steps := ws0 + [v], steps0 + [Go(0)];
  }

  /**
   An ungated task does get taken: the peeked task, which may interrupt, gives way to one that may not before the
   run consumes, and the chat, whatever is going on in it, is never looked at.
   */
  lemma UngatedTask(chat: C.Store, i: Input, format: Format) returns (ws: seq<World>, steps: seq<Step>)
    requires C.Valid(chat) && !i.force && i.now >= 0.0
    ensures IsRun(ws, steps, format) && |steps| == 4 && steps[3] == Go(0) && 0 in ws[4].runs && !ws[4].runs[0].i.force
    ensures ws[4].runs[0].phase.Holding? && TaskId(ws[4].runs[0].phase.task) == Some("b")
    ensures !ws[4].runs[0].phase.task.value.interruptActive
    ensures forall k :: 0 <= k < 5 ==> ws[k].runner.chat == chat
  {
    ws, steps := PeekedInterrupt(chat, i, format);
    ws, steps := TaskReplaced(ws, steps, chat, i, format);
    ws, steps := OtherTaskTaken(ws, steps, i, format);
  }

  lemma TaskReplaced(ws0: seq<World>, steps0: seq<Step>, chat: C.Store, i: Input, format: Format)
    returns (ws: seq<World>, steps: seq<Step>)
    requires IsRun(ws0, steps0, format) && C.Valid(chat)
    requires var w := ws0[|steps0|]; w.runner == Runner(FreshConfig(None), OnlyTask("a", true, i.now), chat) && w.known == {"a"}
    ensures IsRun(ws, steps, format) && |steps| == |steps0| + 1 && ws == ws0 + [ws[|steps|]]
    ensures var w, v := ws0[|steps0|], ws[|steps|];
            v.runner == w.runner.(queue := OnlyTask("b", false, i.now)) && v.runs == w.runs
  {
    var q := OnlyTask("b", false, i.now);
    OnlyTaskPicked("a", true, i.now);
    OnlyTaskPicked("b", false, i.now);
    Extend(ws0, steps0, format, TasksEdited(q));
    ws, steps := ws0 + [Next(ws0[|steps0|], TasksEdited(q), format)], steps0 + [TasksEdited(q)];
  }

  // ---------------------------------------------------------------- settings changed during a run

  datatype Settings = Settings(enabled: bool, interval: real, minIdle: real, heartbeatFile: string)

  function SettingsOf(c: Config): Settings {
    Settings(c.enabled, c.interval, c.minIdle, c.heartbeatFile)
  }

  /** The settings were loaded at step m. */
  ghost predicate LoadedAt(ws: seq<World>, steps: seq<Step>, m: nat, n: nat, t: nat) {
    && m < n < |ws| && m < |steps| && steps[m].Load? && steps[m].run == t && t in ws[n].runs
    && ws[n].runs[t].loaded == ws[m].runner.config && ws[n].runs[t].i == steps[m].i
  }

  lemma {:induction false} LoadedWhen(ws: seq<World>, steps: seq<Step>, format: Format, n: nat, t: nat) returns (m: nat)
    requires IsRun(ws, steps, format) && n < |ws| && t in ws[n].runs
    ensures LoadedAt(ws, steps, m, n, t)
    decreases n
  {
    var k := MovedWhen(ws, steps, format, n, t);
    assert ws[k + 1].runs[t] == ws[n].runs[t];
    assert Follows(ws[k], steps[k], format, ws[k + 1]);
    if steps[k].Load? {
      m := k;
    } else {
      Moves(ws[k], t, format, ws[k + 1]);
      m := LoadedWhen(ws, steps, format, k, t);
    }
  }

  /** What is about to be saved: everything as it was loaded, but for the note of the skip or of the dispatch. */
  ghost predicate SavesLoaded(run: Run) {
    run.phase.Saving? ==>
      && SettingsOf(run.phase.saved) == SettingsOf(run.loaded)
      && !run.phase.out.Raised?
      && run.phase.saved.lastTriggered == if run.phase.out.Dispatched? then Some(run.i.now) else run.loaded.lastTriggered
  }

  lemma GoSaves(w: World, t: nat, format: Format, v: World)
    requires Follows(w, Go(t), format, v)
    ensures t in v.runs && SavesLoaded(v.runs[t])
  {
    if IsLook(w.runs[t].phase) {
      LookedSaves(w.runs[t], Look(w.runs[t], w.runner));
    }
  }

  lemma LookedSaves(run: Run, found: Found)
    requires IsLook(run.phase)
    ensures SavesLoaded(run.(phase := Looked(run, found)))
  {}

  lemma SavingMeans(ws: seq<World>, steps: seq<Step>, format: Format, n: nat, t: nat)
    requires IsRun(ws, steps, format) && n < |ws| && t in ws[n].runs
    ensures SavesLoaded(ws[n].runs[t])
  {
    var k := MovedWhen(ws, steps, format, n, t);
    assert ws[k + 1].runs[t] == ws[n].runs[t];
    assert Follows(ws[k], steps[k], format, ws[k + 1]);
    if steps[k] == Go(t) {
      GoSaves(ws[k], t, format, ws[k + 1]);
    }
  }

  /**
   A run's final save puts back what it loaded: every setting, and the last trigger too unless the run itself has
   dispatched. So the settings on file survive the save if and only if they are the ones that were loaded, and after a
   skip so does the last trigger.
   */
  lemma SaveUndoesExactly(ws: seq<World>, steps: seq<Step>, format: Format, n: nat, t: nat) returns (m: nat)
    requires IsRun(ws, steps, format) && n < |steps| && steps[n] == Go(t) && t in ws[n].runs && ws[n].runs[t].phase.Saving?
    ensures LoadedAt(ws, steps, m, n, t)
    ensures SettingsOf(ws[n + 1].runner.config) == SettingsOf(ws[m].runner.config)
    ensures ws[n + 1].runner.config.lastTriggered
         == if ws[n].runs[t].phase.out.Dispatched? then Some(ws[n].runs[t].i.now) else ws[m].runner.config.lastTriggered
    ensures ws[n].runs[t].phase.out.Skipped? ==>
              (ws[n + 1].runner.config.lastTriggered == ws[n].runner.config.lastTriggered
               <==> ws[n].runner.config.lastTriggered == ws[m].runner.config.lastTriggered)
  {
    m := LoadedWhen(ws, steps, format, n, t);
    SavingMeans(ws, steps, format, n, t);
    assert Follows(ws[n], steps[n], format, ws[n + 1]);
  }

  /** Switching the heartbeat off while a run is under way is undone, even by a run that only notes a skip. */
  lemma DisableUndone(queue: H.Queue, chat: C.Store, i: Input, format: Format) returns (ws: seq<World>, steps: seq<Step>)
    requires H.Valid(queue) && C.Valid(chat) && !i.force && i.now >= 0.0
    ensures IsRun(ws, steps, format) && steps == [Load(0, i), Configure(false, 1.0, 0.0, ""), Go(0)]
    ensures !ws[2].runner.config.enabled && ws[3].runner.config.enabled
  {
    var w0 := World(Runner(FreshConfig(Some(i.now)), queue, chat), 0.0, {}, queue.tasks.Keys, map[], []);
    ws, steps := [w0], [];
    Extend(ws, steps, format, Load(0, i));
    var w1 := Next(w0, Load(0, i), format);
    ws, steps := ws + [w1], steps + [Load(0, i)];
    Extend(ws, steps, format, Configure(false, 1.0, 0.0, ""));
    var w2 := Next(w1, Configure(false, 1.0, 0.0, ""), format);
    ws, steps := ws + [w2], steps + [Configure(false, 1.0, 0.0, "")];
    Extend(ws, steps, format, Go(0));
    ws, steps := ws + [Next(w2, Go(0), format)], steps + [Go(0)];
  }

  // ---------------------------------------------------------------- nothing in between

  function Rank(phase: Phase): nat {
    match phase
    case Loaded => 8
    case Peeked(_) => 7
    case NotBusy(_) => 6
    case NoRecentMessage(_) => 5
    case Clear(_) => 4
    case Holding(_, _) => 3
    case Queued(_, _) => 2
    case Saving(_, _) => 1
    case Finished(_) => 0
  }

  /** The identifiers the run has yet to use are new to the chat. */
  predicate Ready(run: Run, chat: C.Store) {
    && (IsLook(run.phase) || run.phase.Clear? || run.phase.Holding? ==> FreshInput(chat, run.i))
    && (run.phase.Queued? ==> S.FreshFor(chat, run.i.second))
  }

  predicate CanGo(w: World, t: nat) {
    Valid(w.runner) && t in w.runs && Ready(w.runs[t], w.runner.chat)
  }

  lemma LookedRank(run: Run, found: Found)
    requires IsLook(run.phase)
    ensures Rank(Looked(run, found)) < Rank(run.phase) && !Looked(run, found).Holding? && !Looked(run, found).Queued?
  {}

  /** The phase a run goes on to. */
  function PhaseAfter(run: Run, r: Runner, entry: nat, format: Format): Phase
    requires Valid(r) && !run.phase.Finished?
  {
    var phase := run.phase;
    if phase.Clear? then
      var task := Taking(r.queue, run.i.now);
      var obstacle := Obstacle(phase.pending.Some?, task, run.i);
      if obstacle.Some? then SkipTo(run.loaded, obstacle.value, run.i.now) else Holding(entry, task)
    else if phase.Holding? then
      if Fits(Text(run, format)) then Queued(phase.entry, phase.task) else Finished(Raised)
    else if phase.Queued? then
      Saving(Recorded(run.loaded, phase.task, run.i), Dispatched(run.i.first.messageId, TaskId(phase.task)))
    else if phase.Saving? then Finished(phase.out)
    else Looked(run, Look(run, r))
  }

  lemma GoPhase(w: World, t: nat, format: Format, v: World)
    requires Valid(w.runner) && Enabled(w, Go(t)) && v == GoOn(w, t, format)
    ensures v.runs == w.runs[t := w.runs[t].(phase := PhaseAfter(w.runs[t], w.runner, |w.log|, format))]
  {}

  /** What the phase to come is, by the one before. */
  ghost predicate GoesDown(before: Phase, after: Phase) {
    && Rank(after) < Rank(before)
    && (after.Queued? ==> before.Holding?)
    && (after.Holding? ==> before.Clear?)
    && (IsLook(after) || after.Clear? ==> IsLook(before))
  }

  lemma ClearGoesDown(run: Run, r: Runner, entry: nat, format: Format)
    requires Valid(r) && run.phase.Clear?
    ensures GoesDown(run.phase, PhaseAfter(run, r, entry, format))
  {}

  lemma HoldingGoesDown(run: Run, r: Runner, entry: nat, format: Format)
    requires Valid(r) && run.phase.Holding?
    ensures GoesDown(run.phase, PhaseAfter(run, r, entry, format))
    ensures PhaseAfter(run, r, entry, format).Queued? ==> Fits(Text(run, format))
  {}

  lemma LookGoesDown(run: Run, r: Runner, entry: nat, format: Format)
    requires Valid(r) && IsLook(run.phase)
    ensures GoesDown(run.phase, PhaseAfter(run, r, entry, format))
  {
    LookedRank(run, Look(run, r));
  }

  lemma PhaseRank(run: Run, r: Runner, entry: nat, format: Format)
    requires Valid(r) && !run.phase.Finished?
    ensures GoesDown(run.phase, PhaseAfter(run, r, entry, format))
    ensures PhaseAfter(run, r, entry, format).Queued? ==> run.phase.Holding? && Fits(Text(run, format))
  {
    if IsLook(run.phase) {
      LookGoesDown(run, r, entry, format);
    } else if run.phase.Clear? {
      ClearGoesDown(run, r, entry, format);
    } else if run.phase.Holding? {
      HoldingGoesDown(run, r, entry, format);
    }
  }

  lemma ReadyAfter(w: World, t: nat, format: Format, v: World)
    requires CanGo(w, t) && Enabled(w, Go(t)) && v == GoOn(w, t, format)
    ensures t in v.runs && Ready(v.runs[t], v.runner.chat)
  {
    var run := w.runs[t];
    GoPhase(w, t, format, v);
    PhaseRank(run, w.runner, |w.log|, format);
    if run.phase.Holding? {
      StillFresh(w.runner.chat, Text(run, format), run.i, S.Step(w.runner.chat, MessageOp(Text(run, format), run.i), run.i.first));
    }
  }

  lemma RankFalls(w: World, t: nat, format: Format, v: World)
    requires CanGo(w, t) && Enabled(w, Go(t)) && v == GoOn(w, t, format)
    ensures t in v.runs && Rank(v.runs[t].phase) < Rank(w.runs[t].phase)
  {
    GoPhase(w, t, format, v);
    PhaseRank(w.runs[t], w.runner, |w.log|, format);
  }

  lemma GoesOn(w: World, t: nat, format: Format, v: World)
    requires CanGo(w, t) && !w.runs[t].phase.Finished? && v == GoOn(w, t, format)
    ensures CanGo(v, t) && Rank(v.runs[t].phase) < Rank(w.runs[t].phase)
  {
    GoValid(w, t, format, v);
    ReadyAfter(w, t, format, v);
    RankFalls(w, t, format, v);
  }

  /** The run's sections one after the other, with nothing in between. */
  ghost function Alone(w: World, t: nat, format: Format): World
    requires CanGo(w, t)
    decreases Rank(w.runs[t].phase)
  {
    if w.runs[t].phase.Finished? then w
    else
      GoesOn(w, t, format, GoOn(w, t, format));
      Alone(GoOn(w, t, format), t, format)
  }

  /** Going on alone ends with this state and outcome. */
  ghost predicate Ends(w: World, t: nat, format: Format, end: (Runner, Outcome)) {
    CanGo(w, t) && var v := Alone(w, t, format); t in v.runs && v.runner == end.0 && v.runs[t].phase == Finished(end.1)
  }

  lemma EndsStep(w: World, t: nat, format: Format, v: World, end: (Runner, Outcome))
    requires CanGo(w, t) && !w.runs[t].phase.Finished? && v == GoOn(w, t, format) && Ends(v, t, format, end)
    ensures Ends(w, t, format, end)
  {}

  lemma SavingEnds(w: World, t: nat, format: Format)
    requires CanGo(w, t) && w.runs[t].phase.Saving?
    ensures Ends(w, t, format, (w.runner.(config := w.runs[t].phase.saved), w.runs[t].phase.out))
  {
    var v := GoOn(w, t, format);
    GoesOn(w, t, format, v);
    EndsStep(w, t, format, v, (w.runner.(config := w.runs[t].phase.saved), w.runs[t].phase.out));
  }

  lemma SkipEnds(w: World, t: nat, format: Format, reason: Reason, now: real)
    requires CanGo(w, t) && w.runs[t].phase == SkipTo(w.runs[t].loaded, reason, now)
    ensures Ends(w, t, format, Skip(w.runner, w.runs[t].loaded, reason, now))
  {
    if w.runs[t].phase.Saving? {
      SavingEnds(w, t, format);
    }
  }

  lemma QueuedEnds(w: World, t: nat, format: Format, end: (Runner, Outcome))
    requires CanGo(w, t) && w.runs[t].phase.Queued?
    requires var run := w.runs[t];
             end == (Runner(Recorded(run.loaded, run.phase.task, run.i), w.runner.queue, S.Step(w.runner.chat, RecordOp(run.i), run.i.second)),
                     Dispatched(run.i.first.messageId, TaskId(run.phase.task)))
    ensures Ends(w, t, format, end)
  {
    var v := GoOn(w, t, format);
    GoesOn(w, t, format, v);
    SavingEnds(v, t, format);
    EndsStep(w, t, format, v, end);
  }

  lemma HoldingEnds(w: World, t: nat, format: Format, end: (Runner, Outcome))
    requires CanGo(w, t) && w.runs[t].phase.Holding?
    requires var run := w.runs[t];
             end == if Fits(Text(run, format))
                    then (Runner(Recorded(run.loaded, run.phase.task, run.i), w.runner.queue, QueueMessage(w.runner.chat, Text(run, format), run.i)),
                          Dispatched(run.i.first.messageId, TaskId(run.phase.task)))
                    else (w.runner, Raised)
    ensures Ends(w, t, format, end)
  {
    var v := GoOn(w, t, format);
    GoesOn(w, t, format, v);
    if Fits(Text(w.runs[t], format)) {
      QueuedEnds(v, t, format, end);
    }
    EndsStep(w, t, format, v, end);
  }

  lemma ClearEnds(w: World, t: nat, format: Format)
    requires CanGo(w, t) && w.runs[t].phase.Clear?
    ensures var run := w.runs[t];
            Ends(w, t, format, AfterGates(w.runner, run.loaded, run.phase.pending.Some?, run.i, format))
  {
    var run, v := w.runs[t], GoOn(w, t, format);
    var end := AfterGates(w.runner, run.loaded, run.phase.pending.Some?, run.i, format);
    GoesOn(w, t, format, v);
    var obstacle := Obstacle(run.phase.pending.Some?, Taking(w.runner.queue, run.i.now), run.i);
    if obstacle.Some? {
      SkipEnds(v, t, format, obstacle.value, run.i.now);
    } else {
      HoldingEnds(v, t, format, end);
    }
    EndsStep(w, t, format, v, end);
  }

  /** A look either ends the run with the reason it finds, or leads on with nothing changed but the phase. */
  lemma LookEnds(w: World, t: nat, format: Format, v: World, end: (Runner, Outcome))
    requires CanGo(w, t) && IsLook(w.runs[t].phase) && v == GoOn(w, t, format)
    requires var found := Look(w.runs[t], w.runner);
             if found.reason.Some? then end == Skip(w.runner, w.runs[t].loaded, found.reason.value, w.runs[t].i.now)
             else Ends(v, t, format, end)
    ensures Ends(w, t, format, end)
  {
    FoundEnds(w, t, format, v, Look(w.runs[t], w.runner), end);
  }

  lemma FoundEnds(w: World, t: nat, format: Format, v: World, found: Found, end: (Runner, Outcome))
    requires CanGo(w, t) && IsLook(w.runs[t].phase) && v == GoOn(w, t, format) && v == With(w, t, Looked(w.runs[t], found))
    requires if found.reason.Some? then end == Skip(w.runner, w.runs[t].loaded, found.reason.value, w.runs[t].i.now)
             else Ends(v, t, format, end)
    ensures Ends(w, t, format, end)
  {
    GoesOn(w, t, format, v);
    if found.reason.Some? {
      LookSkips(w, t, v, found);
      SkipEnds(v, t, format, found.reason.value, w.runs[t].i.now);
    }
    EndsStep(w, t, format, v, end);
  }

  lemma LookSkips(w: World, t: nat, v: World, found: Found)
    requires t in w.runs && IsLook(w.runs[t].phase) && found.reason.Some? && v == With(w, t, Looked(w.runs[t], found))
    ensures t in v.runs && v.runner == w.runner && v.runs[t].loaded == w.runs[t].loaded
    ensures v.runs[t].phase == SkipTo(w.runs[t].loaded, found.reason.value, w.runs[t].i.now)
  {}

  /** How a run ends once the looking around is over. */
  function LookedOut(r: Runner, run: Run, pending: Option<H.Task>, reason: Option<Reason>, format: Format): (Runner, Outcome)
    requires Valid(r) && FreshInput(r.chat, run.i)
  {
    if reason.Some? then Skip(r, run.loaded, reason.value, run.i.now)
    else AfterGates(r, run.loaded, pending.Some?, run.i, format)
  }

  function RecentReason(recent: bool): Option<Reason> {
    if recent then Some(RecentActivity) else None
  }

  lemma NoRecentMessageEnds(w: World, t: nat, format: Format)
    requires CanGo(w, t) && w.runs[t].phase.NoRecentMessage?
    ensures var run := w.runs[t];
            Ends(w, t, format, LookedOut(w.runner, run, run.phase.pending,
                                       RecentReason(RecentRecord(w.runner.chat, run.i.now - run.loaded.minIdle)), format))
  {
    var run, v := w.runs[t], GoOn(w, t, format);
    var recent := RecentRecord(w.runner.chat, run.i.now - run.loaded.minIdle);
    GoesOn(w, t, format, v);
    if !recent {
      ClearEnds(v, t, format);
    }
    LookEnds(w, t, format, v, LookedOut(w.runner, run, run.phase.pending, RecentReason(recent), format));
  }

  lemma NotBusyEnds(w: World, t: nat, format: Format)
    requires CanGo(w, t) && w.runs[t].phase.NotBusy?
    ensures var run, since := w.runs[t], w.runs[t].i.now - w.runs[t].loaded.minIdle;
            Ends(w, t, format, LookedOut(w.runner, run, run.phase.pending,
                                       RecentReason(RecentMessage(w.runner.chat, since) || RecentRecord(w.runner.chat, since)), format))
  {
    var run, v := w.runs[t], GoOn(w, t, format);
    var since := run.i.now - run.loaded.minIdle;
    var recent := RecentMessage(w.runner.chat, since) || RecentRecord(w.runner.chat, since);
    GoesOn(w, t, format, v);
    if !RecentMessage(w.runner.chat, since) {
      NoRecentMessageEnds(v, t, format);
    }
    LookEnds(w, t, format, v, LookedOut(w.runner, run, run.phase.pending, RecentReason(recent), format));
  }

  lemma PeekedEnds(w: World, t: nat, format: Format)
    requires CanGo(w, t) && w.runs[t].phase.Peeked?
    ensures var run := w.runs[t];
            Ends(w, t, format, LookedOut(w.runner, run, run.phase.pending, NotIdle(w.runner.chat, run.loaded.minIdle, run.i.now), format))
  {
    var run, v := w.runs[t], GoOn(w, t, format);
    GoesOn(w, t, format, v);
    if FirstBusy(Listed(w.runner.chat), w.runner.chat.messages, run.i.now).None? {
      NotBusyEnds(v, t, format);
    }
    LookEnds(w, t, format, v, LookedOut(w.runner, run, run.phase.pending, NotIdle(w.runner.chat, run.loaded.minIdle, run.i.now), format));
  }

  lemma LoadedEnds(w: World, t: nat, format: Format)
    requires CanGo(w, t) && w.runs[t].phase.Loaded?
    ensures var run := w.runs[t];
            var pending := Peek(w.runner.queue, run.i.now);
            Ends(w, t, format, LookedOut(w.runner, run, pending,
                                       if NeedsQuiet(pending, run.i) then NotIdle(w.runner.chat, run.loaded.minIdle, run.i.now) else None, format))
  {
    var run, v := w.runs[t], GoOn(w, t, format);
    var pending := Peek(w.runner.queue, run.i.now);
    GoesOn(w, t, format, v);
    if NeedsQuiet(pending, run.i) {
      PeekedEnds(v, t, format);
    } else {
      ClearEnds(v, t, format);
    }
    var reason := if NeedsQuiet(pending, run.i) then NotIdle(w.runner.chat, run.loaded.minIdle, run.i.now) else None;
    LookEnds(w, t, format, v, LookedOut(w.runner, run, pending, reason, format));
  }

  /** With nothing in between, the sections of a run amount to the one function that `RunOnce` is proved against. */
  lemma SectionsAreOneRun(w: World, t: nat, i: Input, format: Format, v: World)
    requires Valid(w.runner) && Enabled(w, Load(t, i)) && FreshInput(w.runner.chat, i) && v == Next(w, Load(t, i), format)
    ensures Ends(v, t, format, OneRun(w.runner, i, format))
  {
    var reason := LoadGate(w.runner.config, i);
    if reason.Some? {
      SkipEnds(v, t, format, reason.value, i.now);
    } else {
      LoadedEnds(v, t, format);
    }
  }
}
