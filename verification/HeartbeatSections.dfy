/**
 Heartbeat runs section by section. A run loads the settings, peeks at the task queue, scans the chat, consumes a
 task, appends the message, adds a record and saves the settings, each under its own lock. Between any two of these
 the settings may be changed, tasks may come, go and be toggled, the chat may change, and other runs may go on.
 */
module HeartbeatSections {
  import opened Prelude
  import opened HeartbeatRunner
  import H = Heartbeat
  import C = Chat
  import S = ChatStore

  /** How far a run is; a peeked task is remembered until consumption. */
  datatype Phase =
    | Loaded
    | Peeked(pending: Option<H.Task>)
    | NotBusy(pending: Option<H.Task>)
    | NoRecentMessage(pending: Option<H.Task>)
    | Clear(pending: Option<H.Task>)
    | Holding(entry: nat, task: Option<H.Task>)
    | Queued(entry: nat, task: Option<H.Task>)
    | Saving(saved: Config, out: Outcome)
    | Finished(out: Outcome)

  /** A run: what it takes from its surroundings, the settings it loaded, and how far it is. */
  datatype Run = Run(i: Input, loaded: Config, phase: Phase)

  datatype Fate = InFlight | Sent(messageId: string) | Refused

  /** A consumption that goes on to a prompt: by which run, when, of which task, and what became of it. */
  datatype Fired = Fired(run: nat, time: real, task: Option<string>, fate: Fate)

  datatype World = World(
    runner: Runner,
    clock: real,
    ids: set<string>,        // message ids drawn so far
    known: set<string>,      // task ids there have been so far
    runs: map<nat, Run>,
    log: seq<Fired>)

  datatype Step =
    | Load(run: nat, i: Input)
    | Go(run: nat)
    | Configure(enabled: bool, interval: real, minIdle: real, heartbeatFile: string)
    | ChatChanges(chat: C.Store)
    | TasksEdited(queue: H.Queue)

  /** Between consumptions a task that stays is only ever switched on or off, and no task id comes back. */
  predicate EditedFrom(a: H.Queue, b: H.Queue, known: set<string>) {
    forall id :: id in b.tasks ==>
      if id in a.tasks
      then b.tasks[id] == a.tasks[id].(enabled := b.tasks[id].enabled, updatedAt := b.tasks[id].updatedAt)
      else id !in known
  }

  /** The identifiers drawn for the message and the record are new when they are used. */
  predicate IdsFresh(run: Run, chat: C.Store) {
    && (run.phase.Holding? ==> S.FreshFor(chat, run.i.first))
    && (run.phase.Queued? ==> S.FreshFor(chat, run.i.second))
  }

  predicate Enabled(w: World, s: Step) {
    match s
    case Load(t, i) => t !in w.runs && w.clock <= i.now && i.first.messageId !in w.ids
    case Go(t) => t in w.runs && !w.runs[t].phase.Finished? && IdsFresh(w.runs[t], w.runner.chat)
    case Configure(_, interval, _, _) => interval >= 1.0
    case ChatChanges(chat) => C.Valid(chat)
    case TasksEdited(q) => H.Valid(q) && EditedFrom(w.runner.queue, q, w.known)
  }

  function SkipTo(loaded: Config, reason: Reason, now: real): Phase {
    if Throttled(loaded, reason, now) then Finished(Skipped(reason)) else Saving(Noted(loaded, reason, now), Skipped(reason))
  }

  /** What a look at the queue or the chat finds: the task to come, and a reason to skip. */
  datatype Found = Found(pending: Option<H.Task>, reason: Option<Reason>)

  predicate IsLook(phase: Phase) {
    phase.Loaded? || phase.Peeked? || phase.NotBusy? || phase.NoRecentMessage?
  }

  /** Peeking and the three scans of the chat only read. */
  function Look(run: Run, r: Runner): Found
    requires Valid(r) && IsLook(run.phase)
  {
    var since := run.i.now - run.loaded.minIdle;
    match run.phase
    case Loaded => Found(Peek(r.queue, run.i.now), None)
    case Peeked(p) =>
      var busy := FirstBusy(Listed(r.chat), r.chat.messages, run.i.now);
      Found(p, if busy.Some? then Some(ActiveMessage(busy.value)) else None)
    case NotBusy(p) => Found(p, if RecentMessage(r.chat, since) then Some(RecentActivity) else None)
    case NoRecentMessage(p) => Found(p, if RecentRecord(r.chat, since) then Some(RecentActivity) else None)
  }

  /** Where a look leads. */
  function Looked(run: Run, found: Found): Phase
    requires IsLook(run.phase)
  {
    if found.reason.Some? then SkipTo(run.loaded, found.reason.value, run.i.now)
    else
      match run.phase
      case Loaded => if NeedsQuiet(found.pending, run.i) then Peeked(found.pending) else Clear(found.pending)
      case Peeked(_) => NotBusy(found.pending)
      case NotBusy(_) => NoRecentMessage(found.pending)
      case NoRecentMessage(_) => Clear(found.pending)
  }

  function With(w: World, t: nat, phase: Phase): World
    requires t in w.runs
  {
    w.(runs := w.runs[t := w.runs[t].(phase := phase)])
  }

  function AfterConsume(w: World, t: nat): World
    requires Valid(w.runner) && t in w.runs && w.runs[t].phase.Clear?
  {
    var run := w.runs[t];
    var task := Taking(w.runner.queue, run.i.now);
    var obstacle := Obstacle(run.phase.pending.Some?, task, run.i);
    var v := w.(runner := w.runner.(queue := H.Next(w.runner.queue, run.i.now)));
    if obstacle.Some? then With(v, t, SkipTo(run.loaded, obstacle.value, run.i.now))
    else With(v.(log := w.log + [Fired(t, run.i.now, TaskId(task), InFlight)]), t, Holding(|w.log|, task))
  }

  function Text(run: Run, format: Format): string
    requires run.phase.Holding?
  {
    PromptFor(run.loaded, run.phase.task, run.i, format)
  }

  function Judged(log: seq<Fired>, k: nat, fate: Fate): seq<Fired> {
    if k < |log| then log[k := log[k].(fate := fate)] else log
  }

  function AfterAppend(w: World, t: nat, format: Format): World
    requires Valid(w.runner) && t in w.runs && w.runs[t].phase.Holding? && IdsFresh(w.runs[t], w.runner.chat)
  {
    var run := w.runs[t];
    var k := run.phase.entry;
    if Fits(Text(run, format))
    then
      With(w.(runner := w.runner.(chat := S.Step(w.runner.chat, MessageOp(Text(run, format), run.i), run.i.first)),
              log := Judged(w.log, k, Sent(run.i.first.messageId))),
           t, Queued(k, run.phase.task))
    else With(w.(log := Judged(w.log, k, Refused)), t, Finished(Raised))
  }

  function AfterRecord(w: World, t: nat): World
    requires Valid(w.runner) && t in w.runs && w.runs[t].phase.Queued? && IdsFresh(w.runs[t], w.runner.chat)
  {
    var run := w.runs[t];
    With(w.(runner := w.runner.(chat := S.Step(w.runner.chat, RecordOp(run.i), run.i.second))), t,
         Saving(Recorded(run.loaded, run.phase.task, run.i), Dispatched(run.i.first.messageId, TaskId(run.phase.task))))
  }

  function AfterSave(w: World, t: nat): World
    requires t in w.runs && w.runs[t].phase.Saving?
  {
    With(w.(runner := w.runner.(config := w.runs[t].phase.saved)), t, Finished(w.runs[t].phase.out))
  }

  function GoOn(w: World, t: nat, format: Format): World
    requires Valid(w.runner) && Enabled(w, Go(t))
  {
    var phase := w.runs[t].phase;
    if phase.Clear? then AfterConsume(w, t)
    else if phase.Holding? then AfterAppend(w, t, format)
    else if phase.Queued? then AfterRecord(w, t)
    else if phase.Saving? then AfterSave(w, t)
    else With(w, t, Looked(w.runs[t], Look(w.runs[t], w.runner)))
  }

  function Begun(c: Config, i: Input): Run {
    var reason := LoadGate(c, i);
    Run(i, c, if reason.Some? then SkipTo(c, reason.value, i.now) else Loaded)
  }

  function Next(w: World, s: Step, format: Format): World
    requires Valid(w.runner) && Enabled(w, s)
  {
    match s
    case Load(t, i) =>
      w.(clock := i.now, ids := w.ids + {i.first.messageId}, runs := w.runs[t := Begun(w.runner.config, i)])
    case Go(t) => GoOn(w, t, format)
    case Configure(enabled, interval, minIdle, file) =>
      var c := w.runner.config.(enabled := enabled, interval := interval, minIdle := minIdle, heartbeatFile := file);
      w.(runner := w.runner.(config := c))
    case ChatChanges(chat) => w.(runner := w.runner.(chat := chat))
    case TasksEdited(q) => w.(runner := w.runner.(queue := q), known := w.known + q.tasks.Keys)
  }

  // ---------------------------------------------------------------- runs of the machine

  lemma RecordValid(chat: C.Store, i: Input)
    requires C.Valid(chat) && S.FreshFor(chat, i.second)
    ensures C.Valid(S.Step(chat, RecordOp(i), i.second))
  {
    S.StepValid(chat, RecordOp(i), i.second);
  }

  lemma GoValid(w: World, t: nat, format: Format, v: World)
    requires Valid(w.runner) && Enabled(w, Go(t)) && v == GoOn(w, t, format)
    ensures Valid(v.runner)
  {
    var run := w.runs[t];
    if run.phase.Clear? {
      H.NextFrame(w.runner.queue, run.i.now);
    } else if run.phase.Holding? {
      AppendedExactly(w.runner.chat, Text(run, format), run.i, S.Step(w.runner.chat, MessageOp(Text(run, format), run.i), run.i.first));
    } else if run.phase.Queued? {
      RecordValid(w.runner.chat, run.i);
    }
  }

  ghost predicate Follows(w: World, s: Step, format: Format, v: World) {
    Valid(w.runner) && Enabled(w, s) && v == Next(w, s, format)
  }

  lemma StepValid(w: World, s: Step, format: Format, v: World)
    requires Follows(w, s, format, v)
    ensures Valid(v.runner)
  {
    if s.Go? {
      GoValid(w, s.run, format, v);
    }
  }

  /** Nothing has happened yet; settings, queue and chat may be anything. */
  ghost predicate Starts(w: World) {
    Valid(w.runner) && w.runs == map[] && w.ids == {} && w.log == [] && w.runner.queue.tasks.Keys <= w.known
  }

  ghost predicate IsRun(ws: seq<World>, steps: seq<Step>, format: Format) {
    && |ws| == |steps| + 1
    && Starts(ws[0])
    && forall n {:trigger steps[n]} :: 0 <= n < |steps| ==> Follows(ws[n], steps[n], format, ws[n + 1])
  }

  // ---------------------------------------------------------------- trigger counts

  /** How often the log charges a task. */
  function Charges(log: seq<Fired>, id: string): nat {
    if log == [] then 0
    else Charges(log[..|log| - 1], id) + if log[|log| - 1].task == Some(id) then 1 else 0
  }

  lemma ChargesAppend(log: seq<Fired>, f: Fired, id: string)
    ensures Charges(log + [f], id) == Charges(log, id) + if f.task == Some(id) then 1 else 0
  {
    assert (log + [f])[..|log|] == log;
  }

  lemma {:induction false} ChargesJudged(log: seq<Fired>, k: nat, fate: Fate, id: string)
    ensures Charges(Judged(log, k, fate), id) == Charges(log, id)
  {
    if log != [] && k < |log| {
      var n := |log| - 1;
      if k == n {
        assert Judged(log, k, fate)[..n] == log[..n];
      } else {
        ChargesJudged(log[..n], k, fate, id);
        assert Judged(log, k, fate)[..n] == Judged(log[..n], k, fate);
      }
    }
  }

  /** The step changes a task's count exactly as it changes the log's charges. */
  ghost predicate CountFollows(w: World, v: World, id: string) {
    id in w.runner.queue.tasks && id in v.runner.queue.tasks ==>
      v.runner.queue.tasks[id].triggerCount - w.runner.queue.tasks[id].triggerCount == Charges(v.log, id) - Charges(w.log, id)
  }

  lemma ConsumeCounts(w: World, t: nat, id: string, v: World)
    requires Valid(w.runner) && t in w.runs && w.runs[t].phase.Clear? && v == AfterConsume(w, t)
    ensures CountFollows(w, v, id)
  {
    var i := w.runs[t].i;
    TakingFacts(w.runner.queue, i);
    H.NextFrame(w.runner.queue, i.now);
    var task := Taking(w.runner.queue, i.now);
    if Obstacle(w.runs[t].phase.pending.Some?, task, i).None? {
      ChargesAppend(w.log, Fired(t, i.now, TaskId(task), InFlight), id);
    }
  }

  lemma StepCounts(w: World, s: Step, format: Format, id: string, v: World)
    requires Follows(w, s, format, v)
    ensures CountFollows(w, v, id)
  {
    if s.Go? {
      var run := w.runs[s.run];
      if run.phase.Clear? {
        ConsumeCounts(w, s.run, id, v);
      } else if run.phase.Holding? {
        ChargesJudged(w.log, run.phase.entry, Sent(run.i.first.messageId), id);
        ChargesJudged(w.log, run.phase.entry, Refused, id);
      }
    }
  }

  /**
   Conservation over any run: while a task stays in the queue, its trigger count grows by exactly the number of
   consumptions logged for it.
   */
  lemma {:induction false} TriggersAreRuns(ws: seq<World>, steps: seq<Step>, format: Format, n: nat, id: string)
    requires IsRun(ws, steps, format) && n < |ws| && forall m :: 0 <= m <= n ==> id in ws[m].runner.queue.tasks
    ensures ws[n].runner.queue.tasks[id].triggerCount
         == ws[0].runner.queue.tasks[id].triggerCount + Charges(ws[n].log, id)
  {
    if n > 0 {
      TriggersAreRuns(ws, steps, format, n - 1, id);
      StepCounts(ws[n - 1], steps[n - 1], format, id, ws[n]);
    }
  }

  // ---------------------------------------------------------------- messages

  /** How many of a task's charges ended in a message. */
  function SentFor(log: seq<Fired>, id: string): nat {
    if log == [] then 0
    else SentFor(log[..|log| - 1], id) + if log[|log| - 1].task == Some(id) && log[|log| - 1].fate.Sent? then 1 else 0
  }

  /** The messages queued for a task. */
  function MessagesFor(log: seq<Fired>, id: string): set<string> {
    set k | 0 <= k < |log| && log[k].task == Some(id) && log[k].fate.Sent? :: log[k].fate.messageId
  }

  ghost predicate AllSent(log: seq<Fired>, id: string) {
    forall k :: 0 <= k < |log| && log[k].task == Some(id) ==> log[k].fate.Sent?
  }

  lemma {:induction false} SentExactly(log: seq<Fired>, id: string)
    ensures SentFor(log, id) <= Charges(log, id)
    ensures SentFor(log, id) == Charges(log, id) <==> AllSent(log, id)
  {
    if log != [] {
      SentExactly(log[..|log| - 1], id);
    }
  }

  ghost predicate MessagesDiffer(log: seq<Fired>) {
    forall j, k :: 0 <= j < k < |log| && log[j].fate.Sent? && log[k].fate.Sent? ==> log[j].fate.messageId != log[k].fate.messageId
  }

  lemma {:induction false} MessagesCounted(log: seq<Fired>, id: string)
    requires MessagesDiffer(log)
    ensures |MessagesFor(log, id)| == SentFor(log, id)
  {
    if log != [] {
      var n := |log| - 1;
      var front, last := log[..n], log[n];
      MessagesCounted(front, id);
      MessagesSnoc(front, last, id);
      assert log == front + [last];
      if last.task == Some(id) && last.fate.Sent? {
        assert last.fate.messageId !in MessagesFor(front, id);
      }
    }
  }

  lemma MessagesSnoc(log: seq<Fired>, f: Fired, id: string)
    ensures MessagesFor(log + [f], id)
         == MessagesFor(log, id) + if f.task == Some(id) && f.fate.Sent? then {f.fate.messageId} else {}
  {
    var longer := log + [f];
    forall x | x in MessagesFor(log, id) ensures x in MessagesFor(longer, id) {
      var k :| 0 <= k < |log| && log[k].task == Some(id) && log[k].fate.Sent? && log[k].fate.messageId == x;
      assert longer[k] == log[k];
    }
    assert longer[|log|] == f;
  }

  predicate Past(phase: Phase) {
    phase.Holding? || phase.Queued? || phase.Saving? || phase.Finished?
  }

  ghost predicate RunsDiffer(runs: map<nat, Run>, ids: set<string>) {
    && (forall t :: t in runs ==> runs[t].i.first.messageId in ids)
    && (forall t, u :: t in runs && u in runs && t != u ==> runs[t].i.first.messageId != runs[u].i.first.messageId)
  }

  /** An entry belongs to a run that is past its gates, and a message sent is that run's. */
  ghost predicate EntryKnown(f: Fired, runs: map<nat, Run>) {
    && f.run in runs && Past(runs[f.run].phase) && f.time == runs[f.run].i.now
    && (f.fate.Sent? ==> f.fate.messageId == runs[f.run].i.first.messageId)
  }

  ghost predicate EntriesKnown(log: seq<Fired>, runs: map<nat, Run>) {
    && (forall k :: 0 <= k < |log| ==> EntryKnown(log[k], runs))
    && (forall j, k :: 0 <= j < k < |log| ==> log[j].run != log[k].run)
  }

  ghost predicate OwnsEntry(t: nat, run: Run, log: seq<Fired>) {
    && (run.phase.Holding? ==> run.phase.entry < |log| && log[run.phase.entry].run == t && log[run.phase.entry].fate.InFlight?)
    && (run.phase.Queued? ==> run.phase.entry < |log| && log[run.phase.entry].run == t && log[run.phase.entry].fate.Sent?)
  }

  ghost predicate Logged(w: World) {
    && RunsDiffer(w.runs, w.ids) && EntriesKnown(w.log, w.runs)
    && forall t :: t in w.runs ==> OwnsEntry(t, w.runs[t], w.log)
  }

  /** Putting a run into another phase leaves its identity alone. */
  lemma PhaseLogged(w: World, t: nat, phase: Phase, v: World)
    requires Logged(w) && t in w.runs && v.runs == With(w, t, phase).runs && v.ids == w.ids && v.log == w.log
    requires Past(w.runs[t].phase) ==> Past(phase)
    requires OwnsEntry(t, w.runs[t].(phase := phase), w.log)
    ensures Logged(v)
  {}

  lemma EntryAdded(log: seq<Fired>, runs: map<nat, Run>, t: nat, phase: Phase, f: Fired)
    requires EntriesKnown(log, runs) && t in runs && !Past(runs[t].phase) && Past(phase)
    requires f.run == t && f.time == runs[t].i.now && f.fate.InFlight?
    ensures EntriesKnown(log + [f], runs[t := runs[t].(phase := phase)])
  {
    forall k | 0 <= k < |log| ensures log[k].run != t && EntryKnown(log[k], runs[t := runs[t].(phase := phase)]) {
      assert EntryKnown(log[k], runs);
    }
  }

  lemma EntryOpened(w: World, t: nat, task: Option<H.Task>, v: World)
    requires Logged(w) && t in w.runs && w.runs[t].phase.Clear?
    requires v.runs == With(w, t, Holding(|w.log|, task)).runs && v.ids == w.ids
    requires v.log == w.log + [Fired(t, w.runs[t].i.now, TaskId(task), InFlight)]
    ensures Logged(v)
  {
    EntryAdded(w.log, w.runs, t, Holding(|w.log|, task), Fired(t, w.runs[t].i.now, TaskId(task), InFlight));
    forall u | u in v.runs ensures OwnsEntry(u, v.runs[u], v.log) {
      assert OwnsEntry(u, w.runs[u], w.log);
    }
  }

  lemma ConsumeLogged(w: World, t: nat, v: World)
    requires Valid(w.runner) && Logged(w) && t in w.runs && w.runs[t].phase.Clear? && v == AfterConsume(w, t)
    ensures Logged(v)
  {
    var task := Taking(w.runner.queue, w.runs[t].i.now);
    if Obstacle(w.runs[t].phase.pending.Some?, task, w.runs[t].i).None? {
      EntryOpened(w, t, task, v);
    } else {
      PhaseLogged(w, t, v.runs[t].phase, v);
    }
  }

  lemma JudgeLogged(w: World, t: nat, fate: Fate, phase: Phase, v: World)
    requires Logged(w) && t in w.runs && w.runs[t].phase.Holding? && Past(phase)
    requires fate.Sent? ==> fate.messageId == w.runs[t].i.first.messageId
    requires phase.Finished? || (phase.Queued? && phase.entry == w.runs[t].phase.entry && fate.Sent?)
    requires v.runs == With(w, t, phase).runs && v.ids == w.ids && v.log == Judged(w.log, w.runs[t].phase.entry, fate)
    ensures Logged(v)
  {
    var e := w.runs[t].phase.entry;
    assert OwnsEntry(t, w.runs[t], w.log) && EntryKnown(w.log[e], w.runs);
    forall k | 0 <= k < |v.log| ensures EntryKnown(v.log[k], v.runs) {
      assert EntryKnown(w.log[k], w.runs);
    }
    forall u | u in v.runs ensures OwnsEntry(u, v.runs[u], v.log) {
      assert OwnsEntry(u, w.runs[u], w.log);
    }
  }

  lemma GoLogged(w: World, t: nat, format: Format, v: World)
    requires Valid(w.runner) && Logged(w) && Enabled(w, Go(t)) && v == GoOn(w, t, format)
    ensures Logged(v)
  {
    var run := w.runs[t];
    if run.phase.Clear? {
      ConsumeLogged(w, t, v);
    } else if run.phase.Holding? {
      if Fits(Text(run, format)) {
        JudgeLogged(w, t, Sent(run.i.first.messageId), Queued(run.phase.entry, run.phase.task), v);
      } else {
        JudgeLogged(w, t, Refused, Finished(Raised), v);
      }
    } else {
      QuietLogged(w, t, format, v);
    }
  }

  /** Sections that neither open nor judge an entry. */
  lemma QuietLogged(w: World, t: nat, format: Format, v: World)
    requires Valid(w.runner) && Logged(w) && Enabled(w, Go(t)) && v == GoOn(w, t, format)
    requires !w.runs[t].phase.Clear? && !w.runs[t].phase.Holding?
    ensures Logged(v)
  {
    QuietPhase(w, t, format, v);
    PhaseLogged(w, t, v.runs[t].phase, v);
  }

  lemma LookedKind(run: Run, found: Found)
    requires IsLook(run.phase)
    ensures var p := Looked(run, found);
            p.Saving? || p.Finished? || (Looking(p) && p.pending == found.pending)
  {}

  lemma QuietPhase(w: World, t: nat, format: Format, v: World)
    requires Valid(w.runner) && Enabled(w, Go(t)) && v == GoOn(w, t, format)
    requires !w.runs[t].phase.Clear? && !w.runs[t].phase.Holding?
    ensures t in v.runs && !v.runs[t].phase.Holding? && !v.runs[t].phase.Queued?
    ensures v.runs == With(w, t, v.runs[t].phase).runs && v.ids == w.ids && v.log == w.log
    ensures Past(w.runs[t].phase) ==> Past(v.runs[t].phase)
  {
    if IsLook(w.runs[t].phase) {
      LookedKind(w.runs[t], Look(w.runs[t], w.runner));
    }
  }

  lemma StepLogged(w: World, s: Step, format: Format, v: World)
    requires Logged(w) && Follows(w, s, format, v)
    ensures Logged(v)
  {
    if s.Go? {
      GoLogged(w, s.run, format, v);
    } else if s.Load? {
      LoadLogged(w, s.run, s.i, v);
    }
  }

  lemma LoadLogged(w: World, t: nat, i: Input, v: World)
    requires Logged(w) && Enabled(w, Load(t, i)) && v.log == w.log
    requires v.ids == w.ids + {i.first.messageId} && v.runs == w.runs[t := Begun(w.runner.config, i)]
    ensures Logged(v)
  {
    forall k | 0 <= k < |v.log| ensures EntryKnown(v.log[k], v.runs) {
      assert EntryKnown(w.log[k], w.runs);
    }
  }

  lemma {:induction false} LoggedAlong(ws: seq<World>, steps: seq<Step>, format: Format, n: nat)
    requires IsRun(ws, steps, format) && n < |ws|
    ensures Logged(ws[n])
  {
    if n > 0 {
      LoggedAlong(ws, steps, format, n - 1);
      StepLogged(ws[n - 1], steps[n - 1], format, ws[n]);
    }
  }

  lemma LoggedMessagesDiffer(w: World)
    requires Logged(w)
    ensures MessagesDiffer(w.log)
  {
    forall j, k | 0 <= j < k < |w.log| && w.log[j].fate.Sent? && w.log[k].fate.Sent?
      ensures w.log[j].fate.messageId != w.log[k].fate.messageId
    {
      assert EntryKnown(w.log[j], w.runs) && EntryKnown(w.log[k], w.runs);
    }
  }

  /**
   And the messages queued for the task are no more than its triggers, and as many exactly when no consumption
   logged for it is still under way or was refused by the chat.
   */
  lemma TriggersAreMessages(ws: seq<World>, steps: seq<Step>, format: Format, n: nat, id: string)
    requires IsRun(ws, steps, format) && n < |ws| && forall m :: 0 <= m <= n ==> id in ws[m].runner.queue.tasks
    ensures var grown := ws[n].runner.queue.tasks[id].triggerCount - ws[0].runner.queue.tasks[id].triggerCount;
            && |MessagesFor(ws[n].log, id)| <= grown
            && (|MessagesFor(ws[n].log, id)| == grown <==> AllSent(ws[n].log, id))
  {
    TriggersAreRuns(ws, steps, format, n, id);
    LoggedAlong(ws, steps, format, n);
    LoggedMessagesDiffer(ws[n]);
    MessagesCounted(ws[n].log, id);
    SentExactly(ws[n].log, id);
  }

  /** A consumption is sent exactly when its prompt fits, and then a new queued message holds that prompt. */
  lemma SentExactlyWhenFits(ws: seq<World>, steps: seq<Step>, format: Format, n: nat, t: nat)
    requires IsRun(ws, steps, format) && n < |steps| && steps[n] == Go(t) && t in ws[n].runs && ws[n].runs[t].phase.Holding?
    ensures var run, k := ws[n].runs[t], ws[n].runs[t].phase.entry;
            && k < |ws[n + 1].log|
            && (ws[n + 1].log[k].fate.Sent? <==> Fits(Text(run, format)))
            && (NewlyQueued(ws[n].runner.chat, ws[n + 1].runner.chat, Text(run, format)) <==> Fits(Text(run, format)))
            && (!Fits(Text(run, format)) ==> ws[n + 1].runner.chat == ws[n].runner.chat)
  {
    var w, run := ws[n], ws[n].runs[t];
    LoggedAlong(ws, steps, format, n);
    assert OwnsEntry(t, run, w.log);
    AppendedExactly(w.runner.chat, Text(run, format), run.i, S.Step(w.runner.chat, MessageOp(Text(run, format), run.i), run.i.first));
  }

  // ---------------------------------------------------------------- what a run has been through

  /** The last step that moved the run on, and the run as it has been ever since. */
  ghost predicate MovedAt(ws: seq<World>, steps: seq<Step>, k: nat, n: nat, t: nat) {
    && k < n < |ws| && k < |steps| && t in ws[n].runs && MovesOn(steps[k], t)
    && forall j {:trigger ws[j]} :: k < j <= n ==> t in ws[j].runs && ws[j].runs[t] == ws[n].runs[t]
  }

  predicate MovesOn(s: Step, t: nat) {
    s == Go(t) || (s.Load? && s.run == t)
  }

  /** The step leaves every run alone but the one it moves on or begins. */
  ghost predicate LeavesOthers(w: World, s: Step, v: World) {
    forall t :: t in v.runs && !MovesOn(s, t) ==> t in w.runs && w.runs[t] == v.runs[t]
  }

  lemma OthersStay(w: World, s: Step, format: Format, v: World)
    requires Follows(w, s, format, v)
    ensures LeavesOthers(w, s, v)
  {}

  ghost predicate OthersStayAlong(ws: seq<World>, steps: seq<Step>) {
    && |ws| == |steps| + 1 && ws[0].runs == map[]
    && forall n {:trigger steps[n]} :: 0 <= n < |steps| ==> LeavesOthers(ws[n], steps[n], ws[n + 1])
  }

  lemma RunLeavesOthers(ws: seq<World>, steps: seq<Step>, format: Format)
    requires IsRun(ws, steps, format)
    ensures OthersStayAlong(ws, steps)
  {
    forall n | 0 <= n < |steps| ensures LeavesOthers(ws[n], steps[n], ws[n + 1]) {
      OthersStay(ws[n], steps[n], format, ws[n + 1]);
    }
  }

  /** A run that a step leaves alone was moved on when it was before. */
  lemma MovedStays(ws: seq<World>, steps: seq<Step>, k: nat, n: nat, t: nat)
    requires n > 0 && n < |ws| && MovedAt(ws, steps, k, n - 1, t) && t in ws[n].runs && ws[n].runs[t] == ws[n - 1].runs[t]
    ensures MovedAt(ws, steps, k, n, t)
  {}

  lemma {:induction false} LastMove(ws: seq<World>, steps: seq<Step>, n: nat, t: nat) returns (k: nat)
    requires OthersStayAlong(ws, steps) && n < |ws| && t in ws[n].runs
    ensures MovedAt(ws, steps, k, n, t)
  {
    if MovesOn(steps[n - 1], t) {
      k := n - 1;
    } else {
      k := LastMove(ws, steps, n - 1, t);
      MovedStays(ws, steps, k, n, t);
    }
  }

  lemma MovedWhen(ws: seq<World>, steps: seq<Step>, format: Format, n: nat, t: nat) returns (k: nat)
    requires IsRun(ws, steps, format) && n < |ws| && t in ws[n].runs
    ensures MovedAt(ws, steps, k, n, t)
  {
    RunLeavesOthers(ws, steps, format);
    k := LastMove(ws, steps, n, t);
  }

  /** What moving a run on does to it: input and loaded settings stay, and the phase follows from the world. */
  lemma Moves(w: World, t: nat, format: Format, v: World)
    requires Follows(w, Go(t), format, v)
    ensures t in v.runs && v.runs[t].i == w.runs[t].i && v.runs[t].loaded == w.runs[t].loaded
    ensures IsLook(w.runs[t].phase) ==> v.runs[t].phase == Looked(w.runs[t], Look(w.runs[t], w.runner))
    ensures Looking(v.runs[t].phase) ==> IsLook(w.runs[t].phase)
  {}

  predicate Looking(phase: Phase) {
    phase.Peeked? || phase.NotBusy? || phase.NoRecentMessage? || phase.Clear?
  }

  /** The run peeked at the queue at step m. */
  ghost predicate PeekedAt(ws: seq<World>, steps: seq<Step>, m: nat, n: nat, t: nat) {
    && m < n < |ws| && m < |steps| && steps[m] == Go(t) && t in ws[n].runs && Looking(ws[n].runs[t].phase)
    && Valid(ws[m].runner) && t in ws[m].runs && ws[m].runs[t].phase.Loaded? && ws[m].runs[t].i == ws[n].runs[t].i
    && ws[n].runs[t].phase.pending == Peek(ws[m].runner.queue, ws[n].runs[t].i.now)
  }

  lemma CameFrom(w: World, t: nat, format: Format, v: World)
    requires Follows(w, Go(t), format, v) && Looking(v.runs[t].phase)
    ensures v.runs[t].i == w.runs[t].i
    ensures w.runs[t].phase.Loaded? || (Looking(w.runs[t].phase) && w.runs[t].phase.pending == v.runs[t].phase.pending)
    ensures w.runs[t].phase.Loaded? ==> v.runs[t].phase.pending == Peek(w.runner.queue, v.runs[t].i.now)
  {
    Moves(w, t, format, v);
    LookedKind(w.runs[t], Look(w.runs[t], w.runner));
    LookFinds(w.runs[t], w.runner);
  }

  lemma LookFinds(run: Run, r: Runner)
    requires Valid(r) && IsLook(run.phase)
    ensures run.phase.Loaded? ==> Look(run, r) == Found(Peek(r.queue, run.i.now), None)
    ensures !run.phase.Loaded? ==> Look(run, r).pending == run.phase.pending
    ensures run.phase.Peeked? && Look(run, r).reason.None? ==> NothingBusy(r.chat, run.i.now)
    ensures run.phase.NotBusy? && Look(run, r).reason.None? ==> !RecentMessage(r.chat, run.i.now - run.loaded.minIdle)
    ensures run.phase.NoRecentMessage? && Look(run, r).reason.None? ==> !RecentRecord(r.chat, run.i.now - run.loaded.minIdle)
  {
    QuietExactly(r.chat, run.loaded.minIdle, run.i.now);
  }

  lemma LookedLeads(run: Run, found: Found)
    requires IsLook(run.phase)
    ensures var p := Looked(run, found);
            && (p.NotBusy? ==> run.phase.Peeked? && found.reason.None?)
            && (p.NoRecentMessage? ==> run.phase.NotBusy? && found.reason.None?)
            && (p.Clear? ==> found.reason.None? && p.pending == found.pending
                             && (run.phase.NoRecentMessage? || (run.phase.Loaded? && !NeedsQuiet(found.pending, run.i))))
  {}

  lemma {:induction false} PeekedWhen(ws: seq<World>, steps: seq<Step>, format: Format, n: nat, t: nat) returns (m: nat)
    requires IsRun(ws, steps, format) && n < |ws| && t in ws[n].runs && Looking(ws[n].runs[t].phase)
    ensures PeekedAt(ws, steps, m, n, t)
    decreases n
  {
    var k := MovedWhen(ws, steps, format, n, t);
    assert ws[k + 1].runs[t] == ws[n].runs[t];
    assert Follows(ws[k], steps[k], format, ws[k + 1]);
    CameFrom(ws[k], t, format, ws[k + 1]);
    if ws[k].runs[t].phase.Loaded? {
      m := k;
    } else {
      m := PeekedWhen(ws, steps, format, k, t);
    }
  }

  // ---------------------------------------------------------------- is the dispatched task the gated one?

  lemma ConsumePhase(w: World, t: nat, v: World)
    requires Valid(w.runner) && t in w.runs && w.runs[t].phase.Clear? && v == AfterConsume(w, t)
    ensures t in v.runs && (v.runs[t].phase.Holding? ==> v.runs[t].phase.task == Taking(w.runner.queue, w.runs[t].i.now))
    ensures w.runs[t].phase.pending.Some? ==>
              (v.runs[t].phase.Holding? <==> H.Pick(w.runner.queue, w.runs[t].i.now).Some?)
    ensures w.runs[t].phase.pending.Some? && H.Pick(w.runner.queue, w.runs[t].i.now).None? ==>
              v.runs[t].phase == SkipTo(w.runs[t].loaded, NoDueTask, w.runs[t].i.now)
  {
    TakingFacts(w.runner.queue, w.runs[t].i);
  }

  /**
   The task a run takes is the one it peeked at if and only if the queue picks the same task at both moments;
   if the queue picks none any more, the run is skipped for that reason.
   */
  lemma TakenIsPeekedExactly(ws: seq<World>, steps: seq<Step>, format: Format, n: nat, t: nat) returns (m: nat)
    requires IsRun(ws, steps, format) && n < |steps| && steps[n] == Go(t) && t in ws[n].runs
    requires ws[n].runs[t].phase.Clear? && ws[n].runs[t].phase.pending.Some?
    ensures PeekedAt(ws, steps, m, n, t) && Valid(ws[n].runner) && t in ws[n + 1].runs
    ensures var now := ws[n].runs[t].i.now;
            var was, again := H.Pick(ws[m].runner.queue, now), H.Pick(ws[n].runner.queue, now);
            && (ws[n + 1].runs[t].phase.Holding? && TaskId(ws[n + 1].runs[t].phase.task) == TaskId(ws[n].runs[t].phase.pending)
                <==> was == again)
            && (again.None? ==> ws[n + 1].runs[t].phase == SkipTo(ws[n].runs[t].loaded, NoDueTask, now))
  {
    m := PeekedWhen(ws, steps, format, n, t);
    assert Follows(ws[n], steps[n], format, ws[n + 1]);
    ConsumePhase(ws[n], t, ws[n + 1]);
    TakingFacts(ws[m].runner.queue, ws[n].runs[t].i);
    TakingFacts(ws[n].runner.queue, ws[n].runs[t].i);
  }

  /** The chat was scanned and found quiet: nothing busy at a, no recent message at b, no recent record at c. */
  ghost predicate ScannedAt(ws: seq<World>, a: nat, b: nat, c: nat, n: nat, i: Input, minIdle: real) {
    && a < b < c < n < |ws| && Valid(ws[a].runner) && Valid(ws[b].runner) && Valid(ws[c].runner)
    && NothingBusy(ws[a].runner.chat, i.now) && !RecentMessage(ws[b].runner.chat, i.now - minIdle)
    && !RecentRecord(ws[c].runner.chat, i.now - minIdle)
  }

  lemma ScanStep(w: World, t: nat, format: Format, v: World)
    requires Follows(w, Go(t), format, v) && Looking(v.runs[t].phase)
    ensures var run, r := w.runs[t], w.runner;
            && v.runs[t].loaded == run.loaded && v.runs[t].i == run.i
            && (v.runs[t].phase.NotBusy? ==> run.phase.Peeked? && NothingBusy(r.chat, run.i.now))
            && (v.runs[t].phase.NoRecentMessage? ==> run.phase.NotBusy? && !RecentMessage(r.chat, run.i.now - run.loaded.minIdle))
            && (v.runs[t].phase.Clear? ==>
                  || (run.phase.NoRecentMessage? && !RecentRecord(r.chat, run.i.now - run.loaded.minIdle))
                  || !NeedsQuiet(v.runs[t].phase.pending, run.i))
  {
    Moves(w, t, format, v);
    LookFinds(w.runs[t], w.runner);
    LookedLeads(w.runs[t], Look(w.runs[t], w.runner));
  }

  /** The step before, for a run that is looking around. */
  lemma LookedBefore(ws: seq<World>, steps: seq<Step>, format: Format, n: nat, t: nat) returns (k: nat)
    requires IsRun(ws, steps, format) && n < |ws| && t in ws[n].runs && Looking(ws[n].runs[t].phase)
    ensures k < n && k + 1 < |ws| && Follows(ws[k], Go(t), format, ws[k + 1]) && t in ws[k + 1].runs && ws[k + 1].runs[t] == ws[n].runs[t]
  {
    k := MovedWhen(ws, steps, format, n, t);
    assert ws[k + 1].runs[t] == ws[n].runs[t];
    assert Follows(ws[k], steps[k], format, ws[k + 1]);
  }

  /** An unforced run clear to consume has peeked at a task that may interrupt, or has scanned the chat and found it quiet. */
  lemma ClearMeans(ws: seq<World>, steps: seq<Step>, format: Format, n: nat, t: nat) returns (a: nat, b: nat, c: nat)
    requires IsRun(ws, steps, format) && n < |ws| && t in ws[n].runs && ws[n].runs[t].phase.Clear? && !ws[n].runs[t].i.force
    ensures var run := ws[n].runs[t];
            || (run.phase.pending.Some? && run.phase.pending.value.interruptActive)
            || ScannedAt(ws, a, b, c, n, run.i, run.loaded.minIdle)
  {
    c := LookedBefore(ws, steps, format, n, t);
    ScanStep(ws[c], t, format, ws[c + 1]);
    a, b := 0, 0;
    if ws[c].runs[t].phase.NoRecentMessage? {
      b := LookedBefore(ws, steps, format, c, t);
      ScanStep(ws[b], t, format, ws[b + 1]);
      a := LookedBefore(ws, steps, format, b, t);
      ScanStep(ws[a], t, format, ws[a + 1]);
    }
  }
}
