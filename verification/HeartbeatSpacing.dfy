/**
 How far apart heartbeats are. The gate compares with the last trigger on file, and a run that saves puts back the
 last trigger it had loaded unless it has dispatched itself. So whether a message sent keeps later runs at a distance is
 decided by the last save.
 */
module HeartbeatSpacing {
  import opened Prelude
  import opened HeartbeatRunner
  import opened HeartbeatSections
  import opened HeartbeatOverlap
  import H = Heartbeat
  import C = Chat
  import S = ChatStore
  import P = HeartbeatPrompt

  // ---------------------------------------------------------------- what the gate keeps apart

  /** The settings on file know of a trigger at this time or later. */
  predicate Records(c: Config, time: real) {
    c.lastTriggered.Some? && time <= c.lastTriggered.value
  }

  /** With these settings, every unforced run that begins from `clock` on and passes the gate begins an interval after `time`. */
  ghost predicate Covers(c: Config, time: real, clock: real) {
    forall i: Input :: !i.force && i.now >= clock && LoadGate(c, i).None? ==> i.now - time >= c.interval
  }

  /** The earliest unforced run that passes the gate. */
  function Earliest(c: Config, clock: real): Input {
    var now := if c.lastTriggered.Some? then MaxReal(clock, c.lastTriggered.value + c.interval) else clock;
    Input(now, false, S.Env(now, "m", "r"), S.Env(now, "n", "s"), "", None)
  }

  /** The gate keeps later runs an interval away from a past moment exactly when it is on file, or long enough ago. */
  lemma CoversExactly(c: Config, time: real, clock: real)
    requires c.enabled && time <= clock
    ensures Covers(c, time, clock) <==> Records(c, time) || clock - time >= c.interval
  {
    var i := Earliest(c, clock);
    assert LoadGate(c, i).None? && i.now >= clock && !i.force;
  }

  // ---------------------------------------------------------------- what is on file

  /** The step saves a run's settings. */
  predicate IsSave(w: World, s: Step) {
    s.Go? && s.run in w.runs && w.runs[s.run].phase.Saving?
  }

  /** Only a save changes what is on record, and then to what the settings saved record. */
  lemma RecordsStep(w: World, s: Step, format: Format, v: World, time: real)
    requires Follows(w, s, format, v)
    ensures Records(v.runner.config, time)
         == if IsSave(w, s) then Records(w.runs[s.run].phase.saved, time) else Records(w.runner.config, time)
  {
    if s.Go? {
      GoTouches(w, s.run, format, v);
    }
  }

  /** The last save before n, if there was one. */
  ghost predicate IsLastSave(ws: seq<World>, steps: seq<Step>, n: nat, last: Option<nat>)
    requires n <= |steps| && n <= |ws|
  {
    && (last.Some? ==> last.value < n && IsSave(ws[last.value], steps[last.value]))
    && forall j {:trigger steps[j]} :: (last.Some? ==> last.value < j) && 0 <= j < n ==> !IsSave(ws[j], steps[j])
  }

  /** What is on record stems from the last save. */
  lemma {:induction false} RecordsSince(ws: seq<World>, steps: seq<Step>, format: Format, n: nat, time: real) returns (last: Option<nat>)
    requires IsRun(ws, steps, format) && n < |ws|
    ensures IsLastSave(ws, steps, n, last)
    ensures Records(ws[n].runner.config, time)
         == if last.None? then Records(ws[0].runner.config, time)
            else Records(ws[last.value].runs[steps[last.value].run].phase.saved, time)
  {
    if n == 0 {
      last := None;
    } else {
      last := RecordsSince(ws, steps, format, n - 1, time);
      assert Follows(ws[n - 1], steps[n - 1], format, ws[n]);
      RecordsStep(ws[n - 1], steps[n - 1], format, ws[n], time);
      if IsSave(ws[n - 1], steps[n - 1]) {
        last := Some(n - 1);
      }
    }
  }

  /** The run that saved at step s dispatched at this time or later, or had loaded settings that record it. */
  ghost predicate SavedKnowing(ws: seq<World>, steps: seq<Step>, s: nat, m: nat, time: real) {
    && s < |ws| && s < |steps| && IsSave(ws[s], steps[s]) && m < s
    && if ws[s].runs[steps[s].run].phase.out.Dispatched?
       then time <= ws[s].runs[steps[s].run].i.now
       else Records(ws[m].runner.config, time)
  }

  /**
   In any run, overlapping or not, a moment is on record if and only if the run that saved last dispatched then or
   later, or dispatched nothing and had itself loaded settings that record it; before any save, if it was to begin with.
   */
  lemma RecordsExactly(ws: seq<World>, steps: seq<Step>, format: Format, n: nat, time: real) returns (last: Option<nat>, m: nat)
    requires IsRun(ws, steps, format) && n < |ws|
    ensures IsLastSave(ws, steps, n, last)
    ensures last.Some? ==> LoadedAt(ws, steps, m, last.value, steps[last.value].run)
    ensures Records(ws[n].runner.config, time)
        <==> if last.None? then Records(ws[0].runner.config, time) else SavedKnowing(ws, steps, last.value, m, time)
  {
    last := RecordsSince(ws, steps, format, n, time);
    m := 0;
    if last.Some? {
      var t := steps[last.value].run;
      m := LoadedWhen(ws, steps, format, last.value, t);
      SavingMeans(ws, steps, format, last.value, t);
    }
  }

  // ---------------------------------------------------------------- whole runs

  ghost predicate InTime(w: World) {
    forall t :: t in w.runs ==> w.runs[t].i.now <= w.clock
  }

  lemma StepInTime(w: World, s: Step, format: Format, v: World)
    requires InTime(w) && Follows(w, s, format, v)
    ensures InTime(v)
  {
    if s.Go? {
      GoTouches(w, s.run, format, v);
      Moves(w, s.run, format, v);
    }
  }

  lemma {:induction false} InTimeAlong(ws: seq<World>, steps: seq<Step>, format: Format, n: nat)
    requires IsRun(ws, steps, format) && n < |ws|
    ensures InTime(ws[n])
  {
    if n > 0 {
      InTimeAlong(ws, steps, format, n - 1);
      StepInTime(ws[n - 1], steps[n - 1], format, ws[n]);
    }
  }

  lemma SentInThePast(ws: seq<World>, steps: seq<Step>, format: Format, n: nat, k: nat)
    requires IsRun(ws, steps, format) && n < |ws| && k < |ws[n].log|
    ensures ws[n].log[k].time <= ws[n].clock
  {
    LoggedAlong(ws, steps, format, n);
    InTimeAlong(ws, steps, format, n);
    assert EntryKnown(ws[n].log[k], ws[n].runs);
  }

  /**
   At any point of any run at which the heartbeat is enabled, later unforced runs are kept an interval away from a
   message sent so far if and only if that was long enough ago, or the run that saved last knew of it.
   */
  lemma SpacingExactly(ws: seq<World>, steps: seq<Step>, format: Format, n: nat, k: nat) returns (last: Option<nat>, m: nat)
    requires IsRun(ws, steps, format) && n < |ws| && k < |ws[n].log| && ws[n].log[k].fate.Sent? && ws[n].runner.config.enabled
    ensures IsLastSave(ws, steps, n, last)
    ensures last.Some? ==> LoadedAt(ws, steps, m, last.value, steps[last.value].run)
    ensures var time, w := ws[n].log[k].time, ws[n];
            Covers(w.runner.config, time, w.clock) <==>
              || w.clock - time >= w.runner.config.interval
              || if last.None? then Records(ws[0].runner.config, time) else SavedKnowing(ws, steps, last.value, m, time)
  {
    var time := ws[n].log[k].time;
    SentInThePast(ws, steps, format, n, k);
    last, m := RecordsExactly(ws, steps, format, n, time);
    CoversExactly(ws[n].runner.config, time, ws[n].clock);
  }

  // ---------------------------------------------------------------- runs that do not overlap

  predicate IsActive(w: World, t: nat) {
    t in w.runs && !w.runs[t].phase.Finished?
  }

  /** No run begins while another is under way. */
  ghost predicate OneAtATime(ws: seq<World>, steps: seq<Step>) {
    |ws| == |steps| + 1 && forall n {:trigger steps[n]} :: 0 <= n < |steps| && steps[n].Load? ==> forall t :: !IsActive(ws[n], t)
  }

  /** What a run under way is going to leave as the last trigger. */
  ghost predicate OnTheWay(run: Run, c: Config, clock: real) {
    && run.i.now <= clock
    && (!run.phase.Finished? ==>
          && run.loaded.lastTriggered == c.lastTriggered
          && (c.lastTriggered.Some? ==> c.lastTriggered.value <= run.i.now)
          && (run.phase.Saving? ==> run.phase.saved.lastTriggered == c.lastTriggered || run.phase.saved.lastTriggered == Some(run.i.now)))
  }

  /** A message sent by a finished run was sent no later than the last trigger on file. */
  ghost predicate Remembered(log: seq<Fired>, runs: map<nat, Run>, c: Config) {
    forall k :: 0 <= k < |log| && log[k].fate.Sent? && log[k].run in runs && runs[log[k].run].phase.Finished? ==>
      c.lastTriggered.Some? && log[k].time <= c.lastTriggered.value
  }

  ghost predicate WillRemember(log: seq<Fired>, runs: map<nat, Run>) {
    forall k :: 0 <= k < |log| && log[k].fate.Sent? && log[k].run in runs && runs[log[k].run].phase.Saving? ==>
      runs[log[k].run].phase.saved.lastTriggered == Some(log[k].time)
  }

  ghost predicate OneActive(w: World) {
    forall t, u :: IsActive(w, t) && IsActive(w, u) ==> t == u
  }

  ghost predicate AllOnTheWay(w: World) {
    && (w.runner.config.lastTriggered.Some? ==> w.runner.config.lastTriggered.value <= w.clock)
    && forall t :: t in w.runs ==> OnTheWay(w.runs[t], w.runner.config, w.clock)
  }

  ghost predicate Spaced(w: World) {
    && Logged(w) && OneActive(w) && AllOnTheWay(w)
    && Remembered(w.log, w.runs, w.runner.config) && WillRemember(w.log, w.runs)
  }

  lemma LoadOnTheWay(w: World, t: nat, i: Input, format: Format, v: World)
    requires Spaced(w) && Follows(w, Load(t, i), format, v) && forall u :: !IsActive(w, u)
    ensures OneActive(v) && AllOnTheWay(v)
  {
    forall u | u in w.runs ensures u != t && v.runs[u] == w.runs[u] && !IsActive(v, u) && OnTheWay(v.runs[u], v.runner.config, v.clock) {
      assert !IsActive(w, u) && OnTheWay(w.runs[u], w.runner.config, w.clock);
    }
    assert OnTheWay(v.runs[t], v.runner.config, v.clock);
  }

  lemma LoadSpaced(w: World, t: nat, i: Input, format: Format, v: World)
    requires Spaced(w) && Follows(w, Load(t, i), format, v) && forall u :: !IsActive(w, u)
    ensures Spaced(v)
  {
    LoadLogged(w, t, i, v);
    LoadOnTheWay(w, t, i, format, v);
    forall k | 0 <= k < |v.log| ensures v.log[k].run != t {
      assert EntryKnown(w.log[k], w.runs);
    }
  }

  /** A look, a consumption, a refusal or a record: the settings and what was sent by finished runs stay. */
  lemma GoOnTheWay(w: World, t: nat, format: Format, v: World)
    requires Spaced(w) && Follows(w, Go(t), format, v) && !w.runs[t].phase.Saving?
    ensures OnTheWay(v.runs[t], v.runner.config, v.clock)
  {
    GoTouches(w, t, format, v);
    Moves(w, t, format, v);
    assert OnTheWay(w.runs[t], w.runner.config, w.clock);
    if IsLook(w.runs[t].phase) {
      LookedNotes(w.runs[t], Look(w.runs[t], w.runner));
    }
  }

  lemma LookedNotes(run: Run, found: Found)
    requires IsLook(run.phase)
    ensures var p := Looked(run, found); p.Saving? ==> p.saved.lastTriggered == run.loaded.lastTriggered
  {}

  /** What the log says of a run that is moved on. */
  lemma GoEntries(w: World, t: nat, format: Format, v: World, k: nat)
    requires Logged(w) && Follows(w, Go(t), format, v) && k < |v.log| && v.log[k].fate.Sent?
    ensures v.log[k].run != t ==> k < |w.log| && v.log[k] == w.log[k]
    ensures v.log[k].run == t && v.runs[t].phase.Saving? ==> v.runs[t].phase.saved.lastTriggered == Some(v.runs[t].i.now)
    ensures v.log[k].run == t && v.runs[t].phase.Finished? ==> w.runs[t].phase.Saving? && v.log[k] == w.log[k]
  {
    if k < |w.log| {
      assert EntryKnown(w.log[k], w.runs);
    }
    assert OwnsEntry(t, w.runs[t], w.log);
  }

  lemma GoRemembers(w: World, t: nat, format: Format, v: World)
    requires Spaced(w) && Follows(w, Go(t), format, v) && Logged(v)
    ensures WillRemember(v.log, v.runs) && Remembered(v.log, v.runs, v.runner.config)
  {
    GoTouches(w, t, format, v);
    assert OnTheWay(w.runs[t], w.runner.config, w.clock);
    forall k | 0 <= k < |v.log| && v.log[k].fate.Sent? && v.log[k].run in v.runs
      ensures v.runs[v.log[k].run].phase.Saving? ==> v.runs[v.log[k].run].phase.saved.lastTriggered == Some(v.log[k].time)
      ensures v.runs[v.log[k].run].phase.Finished? ==>
                v.runner.config.lastTriggered.Some? && v.log[k].time <= v.runner.config.lastTriggered.value
    {
      GoEntries(w, t, format, v, k);
      assert EntryKnown(v.log[k], v.runs);
    }
  }

  lemma SaveOnTheWay(w: World, t: nat, format: Format, v: World)
    requires Spaced(w) && Follows(w, Go(t), format, v) && w.runs[t].phase.Saving?
    ensures OnTheWay(v.runs[t], v.runner.config, v.clock)
    ensures v.runner.config.lastTriggered.Some? ==> v.runner.config.lastTriggered.value <= v.clock
  {
    assert OnTheWay(w.runs[t], w.runner.config, w.clock);
  }

  lemma GoAllOnTheWay(w: World, t: nat, format: Format, v: World)
    requires Spaced(w) && Follows(w, Go(t), format, v)
    ensures OneActive(v) && AllOnTheWay(v)
  {
    GoTouches(w, t, format, v);
    if w.runs[t].phase.Saving? {
      SaveOnTheWay(w, t, format, v);
    } else {
      GoOnTheWay(w, t, format, v);
    }
    assert IsActive(w, t);
    forall u | u in v.runs && u != t ensures !IsActive(v, u) && OnTheWay(v.runs[u], v.runner.config, v.clock) {
      assert !IsActive(w, u) && OnTheWay(w.runs[u], w.runner.config, w.clock);
    }
  }

  lemma GoSpaced(w: World, t: nat, format: Format, v: World)
    requires Spaced(w) && Follows(w, Go(t), format, v)
    ensures Spaced(v)
  {
    GoLogged(w, t, format, v);
    GoAllOnTheWay(w, t, format, v);
    GoRemembers(w, t, format, v);
  }

  lemma OutsideSpaced(w: World, s: Step, format: Format, v: World)
    requires Spaced(w) && Follows(w, s, format, v) && !s.Load? && !s.Go?
    ensures Spaced(v)
  {
    StepLogged(w, s, format, v);
    assert v.runs == w.runs && v.log == w.log && v.clock == w.clock && v.runner.config.lastTriggered == w.runner.config.lastTriggered;
    forall t | t in v.runs ensures IsActive(v, t) == IsActive(w, t) && OnTheWay(v.runs[t], v.runner.config, v.clock) {
      assert OnTheWay(w.runs[t], w.runner.config, w.clock);
    }
  }

  lemma StepSpaced(w: World, s: Step, format: Format, v: World)
    requires Spaced(w) && Follows(w, s, format, v) && (s.Load? ==> forall t :: !IsActive(w, t))
    ensures Spaced(v)
  {
    if s.Load? {
      LoadSpaced(w, s.run, s.i, format, v);
    } else if s.Go? {
      GoSpaced(w, s.run, format, v);
    } else {
      OutsideSpaced(w, s, format, v);
    }
  }

  lemma {:induction false} SpacedAlong(ws: seq<World>, steps: seq<Step>, format: Format, n: nat)
    requires IsRun(ws, steps, format) && OneAtATime(ws, steps) && n < |ws|
    requires ws[0].runner.config.lastTriggered.Some? ==> ws[0].runner.config.lastTriggered.value <= ws[0].clock
    ensures Spaced(ws[n])
  {
    if n > 0 {
      SpacedAlong(ws, steps, format, n - 1);
      StepSpaced(ws[n - 1], steps[n - 1], format, ws[n]);
    }
  }

  /**
   Hence, as long as runs do not overlap, every message sent is on record when a run begins, and an unforced run that
   passes the gate begins at least the configured interval after it, whatever was changed between the sections.
   */
  lemma DispatchesApart(ws: seq<World>, steps: seq<Step>, format: Format, n: nat, k: nat)
    requires IsRun(ws, steps, format) && OneAtATime(ws, steps) && n < |steps| && steps[n].Load? && !steps[n].i.force
    requires ws[0].runner.config.lastTriggered.Some? ==> ws[0].runner.config.lastTriggered.value <= ws[0].clock
    requires LoadGate(ws[n].runner.config, steps[n].i).None? && k < |ws[n].log| && ws[n].log[k].fate.Sent?
    ensures Records(ws[n].runner.config, ws[n].log[k].time)
    ensures steps[n].i.now - ws[n].log[k].time >= ws[n].runner.config.interval
  {
    SpacedAlong(ws, steps, format, n);
    var run := ws[n].log[k].run;
    assert EntryKnown(ws[n].log[k], ws[n].runs);
    assert !IsActive(ws[n], run);
  }

  // ---------------------------------------------------------------- runs that are not kept apart

  /** The one task these runs take: short, without an interval, and allowed to interrupt. */
  predicate IsA(t: H.Task) {
    && t.id == "a" && t.text == "x" && t.title == "" && t.weight == 1 && t.meta == H.Meta("", "", "", "", "", "")
    && t.deadline.None? && t.minInterval.None? && t.enabled && t.interruptActive
  }

  predicate AlwaysA(q: H.Queue) {
    H.Valid(q) && q.order == ["a"] && "a" in q.tasks && IsA(q.tasks["a"])
  }

  /** Its prompt is not too long for the chat. */
  ghost predicate FitsA(format: Format) {
    forall now, t :: IsA(t) ==> Fits(format("", "x", now, Some(t)))
  }

  /** The identifiers of the two runs are all different. */
  predicate Apart(i: Input, j: Input) {
    && {i.first.messageId, i.second.messageId} !! {j.first.messageId, j.second.messageId}
    && {i.first.recordId, i.second.recordId} !! {j.first.recordId, j.second.recordId}
  }

  /** Between two worlds only this run's identifiers have come into the chat, and the other runs are as they were. */
  ghost predicate OnlyRun(w: World, v: World, t: nat, i: Input) {
    && Valid(v.runner) && v.clock == w.clock
    && v.runner.chat.messages.Keys <= w.runner.chat.messages.Keys + {i.first.messageId, i.second.messageId}
    && v.runner.chat.records.Keys <= w.runner.chat.records.Keys + {i.first.recordId, i.second.recordId}
    && v.runs.Keys == w.runs.Keys && forall u :: u in w.runs && u != t ==> v.runs[u] == w.runs[u]
  }

  lemma OnlyRunTwice(u: World, v: World, w: World, t: nat, i: Input)
    requires OnlyRun(u, v, t, i) && OnlyRun(v, w, t, i)
    ensures OnlyRun(u, w, t, i)
  {}

  lemma StillFreshInput(w: World, v: World, t: nat, i: Input, j: Input)
    requires OnlyRun(w, v, t, i) && Apart(i, j) && FreshInput(w.runner.chat, j)
    ensures FreshInput(v.runner.chat, j)
  {}

  predicate ClearFor(w: World, t: nat, i: Input, loaded: Config) {
    t in w.runs && w.runs[t].i == i && w.runs[t].loaded == loaded && w.runs[t].phase.Clear? && w.runs[t].phase.pending.Some?
  }

  predicate HoldingA(w: World, t: nat, i: Input, loaded: Config, e: nat) {
    && t in w.runs && w.runs[t].i == i && w.runs[t].loaded == loaded
    && w.runs[t].phase.Holding? && w.runs[t].phase.entry == e && w.runs[t].phase.task.Some? && IsA(w.runs[t].phase.task.value)
  }

  lemma PeeksA(w: World, t: nat, format: Format, v: World)
    requires Valid(w.runner) && AlwaysA(w.runner.queue) && t in w.runs && w.runs[t].phase.Loaded? && Follows(w, Go(t), format, v)
    ensures ClearFor(v, t, w.runs[t].i, w.runs[t].loaded) && OnlyRun(w, v, t, w.runs[t].i) && v == w.(runs := v.runs)
  {
    H.PickOnly(w.runner.queue, "a", w.runs[t].i.now);
    assert Peek(w.runner.queue, w.runs[t].i.now) == Some(w.runner.queue.tasks["a"]);
  }

  lemma NextIsA(q: H.Queue, now: real)
    requires AlwaysA(q)
    ensures H.Pick(q, now) == Some("a") && AlwaysA(H.Next(q, now)) && Taking(q, now).Some? && IsA(Taking(q, now).value)
  {
    H.PickOnly(q, "a", now);
    H.NextFrame(q, now);
  }

  lemma TakesA(w: World, t: nat, i: Input, loaded: Config, format: Format, v: World)
    requires AlwaysA(w.runner.queue) && ClearFor(w, t, i, loaded) && Follows(w, Go(t), format, v)
    ensures OnlyRun(w, v, t, i) && AlwaysA(v.runner.queue) && HoldingA(v, t, i, loaded, |w.log|)
    ensures v.runner.config == w.runner.config && v.runner.chat == w.runner.chat && v.ids == w.ids
    ensures v.log == w.log + [Fired(t, i.now, Some("a"), InFlight)]
  {
    NextIsA(w.runner.queue, i.now);
    H.NextFrame(w.runner.queue, i.now);
  }

  /** The message is sent and its record is still to come. */
  ghost predicate SentA(w: World, v: World, t: nat, i: Input, e: nat) {
    && OnlyRun(w, v, t, i) && S.FreshFor(v.runner.chat, i.second) && t in w.runs && t in v.runs
    && w.runs[t].phase.Holding? && v.runs[t] == w.runs[t].(phase := Queued(e, w.runs[t].phase.task))
    && v.runner.config == w.runner.config && v.runner.queue == w.runner.queue && v.ids == w.ids
    && e < |w.log| && v.log == w.log[e := w.log[e].(fate := Sent(i.first.messageId))]
  }

  lemma SendsA(w: World, t: nat, i: Input, loaded: Config, e: nat, format: Format, v: World)
    requires FitsA(format) && loaded.heartbeatFile == "" && HoldingA(w, t, i, loaded, e) && e < |w.log|
    requires Follows(w, Go(t), format, v) && FreshInput(w.runner.chat, i)
    ensures SentA(w, v, t, i, e)
  {
    var text := Text(w.runs[t], format);
    var chat := S.Step(w.runner.chat, MessageOp(text, i), i.first);
    S.StepValid(w.runner.chat, MessageOp(text, i), i.first);
    StillFresh(w.runner.chat, text, i, chat);
    assert Fits(text);
  }

  /** The record is added and the settings are still to be saved. */
  ghost predicate RecordedA(w: World, v: World, t: nat, i: Input) {
    && OnlyRun(w, v, t, i) && t in w.runs && t in v.runs && w.runs[t].phase.Queued?
    && v.runner.config == w.runner.config && v.runner.queue == w.runner.queue && v.ids == w.ids && v.log == w.log
    && v.runs[t] == w.runs[t].(phase := Saving(Recorded(w.runs[t].loaded, w.runs[t].phase.task, i),
                                               Dispatched(i.first.messageId, TaskId(w.runs[t].phase.task))))
  }

  lemma RecordKeys(chat: C.Store, i: Input, v: C.Store)
    requires C.Valid(chat) && S.FreshFor(chat, i.second) && v == S.Step(chat, RecordOp(i), i.second)
    ensures C.Valid(v) && v.messages.Keys <= chat.messages.Keys + {i.second.messageId}
    ensures v.records.Keys <= chat.records.Keys + {i.second.recordId}
  {
    S.StepValid(chat, RecordOp(i), i.second);
  }

  lemma RecordsChat(w: World, t: nat, i: Input, format: Format, v: World)
    requires t in w.runs && w.runs[t].i == i && w.runs[t].phase.Queued? && Follows(w, Go(t), format, v)
    ensures C.Valid(v.runner.chat) && v.runner.chat.messages.Keys <= w.runner.chat.messages.Keys + {i.second.messageId}
    ensures v.runner.chat.records.Keys <= w.runner.chat.records.Keys + {i.second.recordId}
  {
    RecordKeys(w.runner.chat, i, v.runner.chat);
  }

  lemma RecordsPhase(w: World, t: nat, format: Format, v: World)
    requires t in w.runs && w.runs[t].phase.Queued? && Follows(w, Go(t), format, v)
    ensures v == With(w.(runner := w.runner.(chat := v.runner.chat)), t,
                      Saving(Recorded(w.runs[t].loaded, w.runs[t].phase.task, w.runs[t].i),
                             Dispatched(w.runs[t].i.first.messageId, TaskId(w.runs[t].phase.task))))
  {}

  lemma RecordsA(w: World, t: nat, i: Input, format: Format, v: World)
    requires t in w.runs && w.runs[t].i == i && w.runs[t].phase.Queued? && Follows(w, Go(t), format, v)
    ensures RecordedA(w, v, t, i)
  {
    RecordsChat(w, t, i, format, v);
    RecordsPhase(w, t, format, v);
  }

  ghost predicate SavedA(w: World, v: World, t: nat, i: Input) {
    && OnlyRun(w, v, t, i) && t in w.runs && t in v.runs && w.runs[t].phase.Saving?
    && v.runner == w.runner.(config := w.runs[t].phase.saved) && v.ids == w.ids && v.log == w.log
    && v.runs[t] == w.runs[t].(phase := Finished(w.runs[t].phase.out))
  }

  lemma SavesA(w: World, t: nat, i: Input, format: Format, v: World)
    requires t in w.runs && w.runs[t].i == i && w.runs[t].phase.Saving? && Follows(w, Go(t), format, v)
    ensures SavedA(w, v, t, i)
  {}

  /** What a dispatch leaves: the message is sent, and the settings saved are those loaded, with this trigger. */
  ghost predicate DispatchedA(w: World, v: World, t: nat, i: Input, loaded: Config, e: nat) {
    && OnlyRun(w, v, t, i) && v.runner.queue == w.runner.queue && v.ids == w.ids && t in v.runs && v.runs[t].phase.Finished?
    && e < |w.log| && v.log == w.log[e := w.log[e].(fate := Sent(i.first.messageId))]
    && v.runner.config.lastTriggered == Some(i.now) && SettingsOf(v.runner.config) == SettingsOf(loaded)
  }

  lemma DispatchParts(w0: World, w1: World, w2: World, w3: World, t: nat, i: Input, loaded: Config, e: nat)
    requires HoldingA(w0, t, i, loaded, e) && SentA(w0, w1, t, i, e) && RecordedA(w1, w2, t, i) && SavedA(w2, w3, t, i)
    ensures DispatchedA(w0, w3, t, i, loaded, e)
  {
    OnlyRunTwice(w0, w1, w2, t, i);
    OnlyRunTwice(w0, w2, w3, t, i);
  }

  /** The next section of a run, appended. */
  lemma GoesOnAt(ws: seq<World>, steps: seq<Step>, t: nat, format: Format) returns (v: World)
    requires IsRun(ws, steps, format) && Valid(ws[|steps|].runner) && Enabled(ws[|steps|], Go(t))
    ensures IsRun(ws + [v], steps + [Go(t)], format) && Follows(ws[|steps|], Go(t), format, v)
  {
    Extend(ws, steps, format, Go(t));
    v := Next(ws[|steps|], Go(t), format);
  }

  lemma SendStep(ws: seq<World>, steps: seq<Step>, t: nat, i: Input, loaded: Config, e: nat, format: Format) returns (v: World)
    requires IsRun(ws, steps, format) && FitsA(format) && loaded.heartbeatFile == ""
    requires var w := ws[|steps|]; Valid(w.runner) && HoldingA(w, t, i, loaded, e) && e < |w.log| && FreshInput(w.runner.chat, i)
    ensures IsRun(ws + [v], steps + [Go(t)], format) && SentA(ws[|steps|], v, t, i, e)
  {
    v := GoesOnAt(ws, steps, t, format);
    SendsA(ws[|steps|], t, i, loaded, e, format, v);
  }

  lemma RecordStep(ws: seq<World>, steps: seq<Step>, t: nat, i: Input, format: Format) returns (v: World)
    requires IsRun(ws, steps, format)
    requires var w := ws[|steps|];
             Valid(w.runner) && t in w.runs && w.runs[t].i == i && w.runs[t].phase.Queued? && S.FreshFor(w.runner.chat, i.second)
    ensures IsRun(ws + [v], steps + [Go(t)], format) && RecordedA(ws[|steps|], v, t, i)
  {
    v := GoesOnAt(ws, steps, t, format);
    RecordsA(ws[|steps|], t, i, format, v);
  }

  lemma SaveStep(ws: seq<World>, steps: seq<Step>, t: nat, i: Input, format: Format) returns (v: World)
    requires IsRun(ws, steps, format)
    requires var w := ws[|steps|]; Valid(w.runner) && t in w.runs && w.runs[t].i == i && w.runs[t].phase.Saving?
    ensures IsRun(ws + [v], steps + [Go(t)], format) && SavedA(ws[|steps|], v, t, i)
  {
    v := GoesOnAt(ws, steps, t, format);
    SavesA(ws[|steps|], t, i, format, v);
  }

  /** From holding the task to the save, with nothing in between. */
  lemma CarriesOn(ws0: seq<World>, steps0: seq<Step>, t: nat, i: Input, loaded: Config, e: nat, format: Format)
    returns (ws: seq<World>, steps: seq<Step>)
    requires IsRun(ws0, steps0, format) && FitsA(format) && loaded.heartbeatFile == ""
    requires var w := ws0[|steps0|]; Valid(w.runner) && HoldingA(w, t, i, loaded, e) && e < |w.log| && FreshInput(w.runner.chat, i)
    ensures IsRun(ws, steps, format) && steps0 <= steps && ws0 <= ws
    ensures DispatchedA(ws0[|steps0|], ws[|steps|], t, i, loaded, e)
  {
    var w1 := SendStep(ws0, steps0, t, i, loaded, e, format);
    ws, steps := ws0 + [w1], steps0 + [Go(t)];
    var w2 := RecordStep(ws, steps, t, i, format);
    ws, steps := ws + [w2], steps + [Go(t)];
    var w3 := SaveStep(ws, steps, t, i, format);
    ws, steps := ws + [w3], steps + [Go(t)];
    DispatchParts(ws0[|steps0|], w1, w2, w3, t, i, loaded, e);
  }

  lemma LoadStep(ws: seq<World>, steps: seq<Step>, t: nat, i: Input, format: Format) returns (v: World)
    requires IsRun(ws, steps, format)
    requires var w := ws[|steps|]; Valid(w.runner) && t !in w.runs && w.clock <= i.now && i.first.messageId !in w.ids
    ensures IsRun(ws + [v], steps + [Load(t, i)], format)
    ensures var w := ws[|steps|];
            v == w.(clock := i.now, ids := w.ids + {i.first.messageId}, runs := w.runs[t := Begun(w.runner.config, i)])
  {
    Extend(ws, steps, format, Load(t, i));
    v := Next(ws[|steps|], Load(t, i), format);
  }

  lemma PeekStep(ws: seq<World>, steps: seq<Step>, t: nat, format: Format) returns (v: World)
    requires IsRun(ws, steps, format)
    requires var w := ws[|steps|]; Valid(w.runner) && AlwaysA(w.runner.queue) && t in w.runs && w.runs[t].phase.Loaded?
    ensures IsRun(ws + [v], steps + [Go(t)], format)
    ensures var w := ws[|steps|];
            ClearFor(v, t, w.runs[t].i, w.runs[t].loaded) && OnlyRun(w, v, t, w.runs[t].i) && v == w.(runs := v.runs)
  {
    v := GoesOnAt(ws, steps, t, format);
    PeeksA(ws[|steps|], t, format, v);
  }

  /** The task is taken. */
  ghost predicate TakenA(w: World, v: World, t: nat, i: Input, loaded: Config) {
    && OnlyRun(w, v, t, i) && AlwaysA(v.runner.queue) && HoldingA(v, t, i, loaded, |w.log|)
    && v.runner.config == w.runner.config && v.runner.chat == w.runner.chat && v.ids == w.ids
    && v.log == w.log + [Fired(t, i.now, Some("a"), InFlight)]
  }

  lemma TakeStep(ws: seq<World>, steps: seq<Step>, t: nat, i: Input, loaded: Config, format: Format) returns (v: World)
    requires IsRun(ws, steps, format)
    requires var w := ws[|steps|]; Valid(w.runner) && AlwaysA(w.runner.queue) && ClearFor(w, t, i, loaded)
    ensures IsRun(ws + [v], steps + [Go(t)], format) && TakenA(ws[|steps|], v, t, i, loaded)
  {
    v := GoesOnAt(ws, steps, t, format);
    TakesA(ws[|steps|], t, i, loaded, format, v);
  }

  // Two runs at once.

  lemma BothLoaded(chat: C.Store, i: Input, j: Input, format: Format) returns (ws: seq<World>, steps: seq<Step>)
    requires C.Valid(chat) && !i.force && !j.force && 0.0 <= i.now == j.now && i.first.messageId != j.first.messageId
    ensures IsRun(ws, steps, format) && steps == [Load(0, i), Load(1, j)] && ws[0].runner.config.interval == 1.0
    ensures var w := ws[2];
            && Valid(w.runner) && AlwaysA(w.runner.queue) && w.log == [] && w.runner.chat == chat
            && w.runs == map[0 := Run(i, FreshConfig(None), Loaded), 1 := Run(j, FreshConfig(None), Loaded)]
  {
    OnlyTaskPicked("a", true, i.now);
    var w0 := World(Runner(FreshConfig(None), OnlyTask("a", true, i.now), chat), 0.0, {}, {"a"}, map[], []);
    ws, steps := [w0], [];
    var w1 := LoadStep(ws, steps, 0, i, format);
    ws, steps := ws + [w1], steps + [Load(0, i)];
    var w2 := LoadStep(ws, steps, 1, j, format);
    ws, steps := ws + [w2], steps + [Load(1, j)];
    assert w2.runs == map[0 := Run(i, FreshConfig(None), Loaded), 1 := Run(j, FreshConfig(None), Loaded)];
  }

  /** Both runs hold the task they are going to send. */
  ghost predicate BothHolding(w: World, i: Input, j: Input, loaded: Config) {
    && Valid(w.runner) && HoldingA(w, 0, i, loaded, 0) && HoldingA(w, 1, j, loaded, 1)
    && w.log == [Fired(0, i.now, Some("a"), InFlight), Fired(1, j.now, Some("a"), InFlight)]
  }

  lemma BothPeek(ws0: seq<World>, steps0: seq<Step>, format: Format) returns (ws: seq<World>, steps: seq<Step>)
    requires IsRun(ws0, steps0, format)
    requires var w := ws0[|steps0|];
             Valid(w.runner) && AlwaysA(w.runner.queue) && w.runs.Keys == {0, 1} && w.runs[0].phase.Loaded? && w.runs[1].phase.Loaded?
    ensures IsRun(ws, steps, format) && steps0 <= steps && ws0 <= ws
    ensures var w, v := ws0[|steps0|], ws[|steps|];
            && v == w.(runs := v.runs)
            && ClearFor(v, 0, w.runs[0].i, w.runs[0].loaded) && ClearFor(v, 1, w.runs[1].i, w.runs[1].loaded)
  {
    var w1 := PeekStep(ws0, steps0, 0, format);
    ws, steps := ws0 + [w1], steps0 + [Go(0)];
    var w2 := PeekStep(ws, steps, 1, format);
    ws, steps := ws + [w2], steps + [Go(1)];
  }

  lemma BothTake(ws0: seq<World>, steps0: seq<Step>, i: Input, j: Input, loaded: Config, format: Format)
    returns (ws: seq<World>, steps: seq<Step>)
    requires IsRun(ws0, steps0, format)
    requires var w := ws0[|steps0|];
             Valid(w.runner) && AlwaysA(w.runner.queue) && w.log == [] && ClearFor(w, 0, i, loaded) && ClearFor(w, 1, j, loaded)
    ensures IsRun(ws, steps, format) && steps0 <= steps && ws0 <= ws
    ensures BothHolding(ws[|steps|], i, j, loaded) && ws[|steps|].runner.chat == ws0[|steps0|].runner.chat
  {
    var w1 := TakeStep(ws0, steps0, 0, i, loaded, format);
    ws, steps := ws0 + [w1], steps0 + [Go(0)];
    var w2 := TakeStep(ws, steps, 1, j, loaded, format);
    ws, steps := ws + [w2], steps + [Go(1)];
  }

  lemma BothSend(ws0: seq<World>, steps0: seq<Step>, i: Input, j: Input, loaded: Config, format: Format)
    returns (ws: seq<World>, steps: seq<Step>)
    requires IsRun(ws0, steps0, format) && FitsA(format) && loaded.heartbeatFile == "" && Apart(i, j)
    requires var w := ws0[|steps0|];
             BothHolding(w, i, j, loaded) && FreshInput(w.runner.chat, i) && FreshInput(w.runner.chat, j)
    ensures IsRun(ws, steps, format) && steps0 <= steps && ws0 <= ws
    ensures ws[|steps|].log
         == [Fired(0, i.now, Some("a"), Sent(i.first.messageId)), Fired(1, j.now, Some("a"), Sent(j.first.messageId))]
  {
    ws, steps := CarriesOn(ws0, steps0, 0, i, loaded, 0, format);
    StillFreshInput(ws0[|steps0|], ws[|steps|], 0, i, j);
    ws, steps := CarriesOn(ws, steps, 1, j, loaded, 1, format);
  }

  /**
   Overlapping runs are not kept apart: both load before either saves, both take the task, and at one and the same
   moment both send a message.
   */
  lemma TwoRunsAtOnce(chat: C.Store, i: Input, j: Input, format: Format) returns (ws: seq<World>, steps: seq<Step>)
    requires C.Valid(chat) && !i.force && !j.force && 0.0 <= i.now == j.now
    requires FreshInput(chat, i) && FreshInput(chat, j) && Apart(i, j) && FitsA(format)
    ensures IsRun(ws, steps, format) && [Load(0, i), Load(1, j)] <= steps && ws[0].runner.config.interval == 1.0
    ensures ws[|steps|].log
         == [Fired(0, i.now, Some("a"), Sent(i.first.messageId)), Fired(1, i.now, Some("a"), Sent(j.first.messageId))]
  {
    ws, steps := BothLoaded(chat, i, j, format);
    ws, steps := BothPeek(ws, steps, format);
    ws, steps := BothTake(ws, steps, i, j, FreshConfig(None), format);
    ws, steps := BothSend(ws, steps, i, j, FreshConfig(None), format);
  }

  // A skip saved late.

  /** What a run that dispatches with nothing in between leaves. */
  ghost predicate FiredA(w: World, v: World, t: nat, i: Input, loaded: Config) {
    && OnlyRun(w, v, t, i) && AlwaysA(v.runner.queue) && v.ids == w.ids && t in v.runs && v.runs[t].phase.Finished?
    && v.log == w.log + [Fired(t, i.now, Some("a"), Sent(i.first.messageId))]
    && v.runner.config.lastTriggered == Some(i.now) && SettingsOf(v.runner.config) == SettingsOf(loaded)
  }

  lemma FiredParts(w0: World, w1: World, w2: World, w3: World, t: nat, i: Input, loaded: Config)
    requires OnlyRun(w0, w1, t, i) && w1 == w0.(runs := w1.runs)
    requires TakenA(w1, w2, t, i, loaded) && DispatchedA(w2, w3, t, i, loaded, |w1.log|)
    ensures FiredA(w0, w3, t, i, loaded)
  {
    OnlyRunTwice(w0, w1, w2, t, i);
    OnlyRunTwice(w0, w2, w3, t, i);
  }

  lemma Dispatches(ws0: seq<World>, steps0: seq<Step>, t: nat, i: Input, loaded: Config, format: Format)
    returns (ws: seq<World>, steps: seq<Step>)
    requires IsRun(ws0, steps0, format) && FitsA(format) && loaded.heartbeatFile == ""
    requires var w := ws0[|steps0|];
             && Valid(w.runner) && AlwaysA(w.runner.queue) && FreshInput(w.runner.chat, i)
             && t in w.runs && w.runs[t] == Run(i, loaded, Loaded)
    ensures IsRun(ws, steps, format) && steps0 <= steps && ws0 <= ws
    ensures FiredA(ws0[|steps0|], ws[|steps|], t, i, loaded)
  {
    var w1 := PeekStep(ws0, steps0, t, format);
    ws, steps := ws0 + [w1], steps0 + [Go(t)];
    var w2 := TakeStep(ws, steps, t, i, loaded, format);
    ws, steps := ws + [w2], steps + [Go(t)];
    ws, steps := CarriesOn(ws, steps, t, i, loaded, |w1.log|, format);
    FiredParts(ws0[|steps0|], w1, w2, ws[|steps|], t, i, loaded);
  }

  /** One run is about to save a skip, with an old trigger; another has loaded after it and passed the gate. */
  ghost predicate SkipPending(w: World, chat: C.Store, i: Input, j: Input) {
    var c := FreshConfig(Some(0.0));
    && Valid(w.runner) && AlwaysA(w.runner.queue) && w.log == [] && w.runner.chat == chat
    && w.clock == j.now && w.ids == {i.first.messageId, j.first.messageId}
    && w.runs == map[0 := Run(i, c, Saving(Noted(c, IntervalNotElapsed, i.now), Skipped(IntervalNotElapsed))),
                     1 := Run(j, c, Loaded)]
  }

  lemma SkipBegins(chat: C.Store, i: Input, j: Input, format: Format) returns (ws: seq<World>, steps: seq<Step>)
    requires C.Valid(chat) && !i.force && !j.force && 0.0 <= i.now < 1.0 <= j.now && i.first.messageId != j.first.messageId
    ensures IsRun(ws, steps, format) && SkipPending(ws[|steps|], chat, i, j)
  {
    OnlyTaskPicked("a", true, i.now);
    var w0 := World(Runner(FreshConfig(Some(0.0)), OnlyTask("a", true, i.now), chat), 0.0, {}, {"a"}, map[], []);
    ws, steps := [w0], [];
    var w1 := LoadStep(ws, steps, 0, i, format);
    ws, steps := ws + [w1], steps + [Load(0, i)];
    var w2 := LoadStep(ws, steps, 1, j, format);
    ws, steps := ws + [w2], steps + [Load(1, j)];
  }

  /** After the dispatch the old trigger is back on file, and no run is under way. */
  ghost predicate Forgotten(w: World, chat: C.Store, i: Input, j: Input) {
    && Valid(w.runner) && AlwaysA(w.runner.queue) && w.clock == j.now && w.ids == {i.first.messageId, j.first.messageId}
    && w.log == [Fired(1, j.now, Some("a"), Sent(j.first.messageId))] && w.runs.Keys == {0, 1}
    && w.runner.chat.messages.Keys <= chat.messages.Keys + {j.first.messageId, j.second.messageId}
    && w.runner.chat.records.Keys <= chat.records.Keys + {j.first.recordId, j.second.recordId}
    && w.runner.config == Noted(FreshConfig(Some(0.0)), IntervalNotElapsed, i.now) && forall t :: !IsActive(w, t)
  }

  lemma ForgottenParts(w0: World, w1: World, w2: World, chat: C.Store, i: Input, j: Input)
    requires SkipPending(w0, chat, i, j) && FiredA(w0, w1, 1, j, FreshConfig(Some(0.0))) && SavedA(w1, w2, 0, i)
    ensures Forgotten(w2, chat, i, j)
  {}

  lemma TriggerForgotten(chat: C.Store, i: Input, j: Input, format: Format) returns (ws: seq<World>, steps: seq<Step>)
    requires C.Valid(chat) && !i.force && !j.force && 0.0 <= i.now < 1.0 <= j.now
    requires FreshInput(chat, j) && Apart(i, j) && FitsA(format)
    ensures IsRun(ws, steps, format) && Forgotten(ws[|steps|], chat, i, j)
  {
    ws, steps := SkipBegins(chat, i, j, format);
    var w0 := ws[|steps|];
    ws, steps := Dispatches(ws, steps, 1, j, FreshConfig(Some(0.0)), format);
    var w1 := ws[|steps|];
    var w2 := SaveStep(ws, steps, 0, i, format);
    ForgottenParts(w0, w1, w2, chat, i, j);
    ws, steps := ws + [w2], steps + [Go(0)];
  }

  /**
   Nor are runs that begin when no other is under way, if a skip was saved late: a run that began before the dispatch
   puts the trigger it had loaded back on file, and the next run passes the gate right after the dispatch.
   */
  lemma LateSkipForgets(chat: C.Store, i: Input, j: Input, k: Input, format: Format)
    returns (ws: seq<World>, steps: seq<Step>, m: nat)
    requires C.Valid(chat) && !i.force && !j.force && !k.force && 0.0 <= i.now < 1.0 <= j.now <= k.now < j.now + 1.0
    requires FreshInput(chat, j) && FreshInput(chat, k) && Apart(i, j) && Apart(i, k) && Apart(j, k) && FitsA(format)
    ensures IsRun(ws, steps, format) && m < |steps| && steps[m] == Load(2, k) && forall t :: !IsActive(ws[m], t)
    ensures ws[m].runner.config.interval == 1.0 && ws[m].log == [Fired(1, j.now, Some("a"), Sent(j.first.messageId))]
    ensures ws[|steps|].log == ws[m].log + [Fired(2, k.now, Some("a"), Sent(k.first.messageId))]
  {
    ws, steps := TriggerForgotten(chat, i, j, format);
    m := |steps|;
    var loaded := ws[m].runner.config;
    var v := LoadStep(ws, steps, 2, k, format);
    ws, steps := ws + [v], steps + [Load(2, k)];
    ws, steps := Dispatches(ws, steps, 2, k, loaded, format);
  }

  // Prompts do fit.

  /** With the layout the program uses, the prompt of that task is short. */
  lemma LayoutFitsA(show: P.Show)
    requires |show.taskRequest| <= 1000 && forall now :: |show.moment(now)| <= 1000
    ensures FitsA(Layout(show))
  {
    var format := Layout(show);
    forall now, t | IsA(t) ensures Fits(format("", "x", now, Some(t))) {
      P.PlainPromptBound("", "x", now, t, show, 1000);
      P.PromptUnstripped("", "x", now, Some(t), show);
    }
  }
}
