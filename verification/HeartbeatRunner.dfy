/**
 One heartbeat: gate on the interval and on chat idleness, take the next task, queue it as a chat message. A run is
 a row of locked sections on three files: the settings, the task queue and the chat. Here it is one function, which
 is what the sections amount to when nothing falls between them.
 */
module HeartbeatRunner {
  import opened Prelude
  import opened HeartbeatPrompt
  import H = Heartbeat
  import C = Chat
  import S = ChatStore
  import HeartbeatStore
  import ChatSession

  const STALE_NON_USER_ACTIVE_SECONDS: real := 1800.0
  const SKIP_STATE_WRITE_MIN_SECONDS: real := 300.0
  const LIST_LIMIT := 1000

  datatype Reason =
    | Disabled | IntervalNotElapsed | ActiveMessage(status: C.Status) | RecentActivity
    | NoDueTask | FileNotFound | FileEmpty

  datatype Config = Config(
    enabled: bool, interval: real, minIdle: real, heartbeatFile: string,
    lastTriggered: Option<real>, lastMessage: Option<string>, lastTask: Option<string>,
    lastSkippedAt: Option<real>, lastSkipReason: Option<Reason>)

  datatype Runner = Runner(config: Config, queue: H.Queue, chat: C.Store)

  predicate Valid(r: Runner) {
    H.Valid(r.queue) && C.Valid(r.chat)
  }

  /** What one run takes from its surroundings; `file` is what the heartbeat file holds, if it exists. */
  datatype Input = Input(now: real, force: bool, first: S.Env, second: S.Env, clientId: string, file: Option<string>)

  predicate FreshInput(chat: C.Store, i: Input) {
    && S.FreshFor(chat, i.first) && S.FreshFor(chat, i.second)
    && i.first.messageId != i.second.messageId && i.first.recordId != i.second.recordId
  }

  datatype Outcome = Skipped(reason: Reason) | Dispatched(messageId: string, task: Option<string>) | Raised

  // ---------------------------------------------------------------- idleness

  predicate IsActiveStatus(s: C.Status) {
    s == C.Queued || s == C.Claimed || s == C.Streaming
  }

  /** Python's `updated_at or created_at or otherwise`. */
  function Stamp(m: C.Message, otherwise: real): real {
    if m.updatedAt != 0.0 then m.updatedAt else if m.createdAt != 0.0 then m.createdAt else otherwise
  }

  predicate IsBusy(m: C.Message, now: real) {
    IsActiveStatus(m.status) && !(m.role != C.User && now - Stamp(m, now) >= STALE_NON_USER_ACTIVE_SECONDS)
  }

  function Listed(chat: C.Store): seq<string>
    requires C.Valid(chat)
  {
    C.LastN(C.SortedIds(C.MessageKeys(chat.messages)), LIST_LIMIT)
  }

  function ListedRecords(chat: C.Store): seq<string>
    requires C.Valid(chat)
  {
    C.LastN(C.SortedIds(C.RecordKeys(chat.records)), C.MAX_CHAT_RECORDS)
  }

  function FirstBusy(ids: seq<string>, ms: map<string, C.Message>, now: real): Option<C.Status> {
    if ids == [] then None
    else if ids[0] in ms && IsBusy(ms[ids[0]], now) then Some(ms[ids[0]].status)
    else FirstBusy(ids[1..], ms, now)
  }

  /** The scan finds something exactly when some listed message is busy. */
  lemma {:induction false} FirstBusyExactly(ids: seq<string>, ms: map<string, C.Message>, now: real)
    ensures FirstBusy(ids, ms, now).Some? <==> exists id :: id in ids && id in ms && IsBusy(ms[id], now)
    ensures FirstBusy(ids, ms, now).Some? ==> IsActiveStatus(FirstBusy(ids, ms, now).value)
  {
    if ids != [] {
      FirstBusyExactly(ids[1..], ms, now);
      assert ids == [ids[0]] + ids[1..];
    }
  }

  /** Some listed message is stamped after `since`. */
  predicate RecentMessage(chat: C.Store, since: real)
    requires C.Valid(chat)
  {
    exists id :: id in Listed(chat) && id in chat.messages
      && Stamp(chat.messages[id], 0.0) > 0.0 && Stamp(chat.messages[id], 0.0) > since
  }

  predicate RecentRecord(chat: C.Store, since: real)
    requires C.Valid(chat)
  {
    exists id :: id in ListedRecords(chat) && id in chat.records
      && chat.records[id].createdAt > 0.0 && chat.records[id].createdAt > since
  }

  /** Why the chat is not idle, if it is not. */
  function NotIdle(chat: C.Store, minIdle: real, now: real): Option<Reason>
    requires C.Valid(chat)
  {
    var busy := FirstBusy(Listed(chat), chat.messages, now);
    if busy.Some? then Some(ActiveMessage(busy.value))
    else if RecentMessage(chat, now - minIdle) || RecentRecord(chat, now - minIdle) then Some(RecentActivity)
    else None
  }

  predicate NoneBusy(ids: seq<string>, ms: map<string, C.Message>, now: real) {
    forall id :: id in ids && id in ms ==> !IsBusy(ms[id], now)
  }

  predicate NothingBusy(chat: C.Store, now: real)
    requires C.Valid(chat)
  {
    NoneBusy(Listed(chat), chat.messages, now)
  }

  /** No listed message is being worked on, and nothing listed is newer than the idle time allows. */
  predicate Quiet(chat: C.Store, minIdle: real, now: real)
    requires C.Valid(chat)
  {
    NothingBusy(chat, now) && !RecentMessage(chat, now - minIdle) && !RecentRecord(chat, now - minIdle)
  }

  lemma BusyExactly(ids: seq<string>, ms: map<string, C.Message>, now: real)
    ensures FirstBusy(ids, ms, now).None? <==> NoneBusy(ids, ms, now)
  {
    FirstBusyExactly(ids, ms, now);
  }

  lemma QuietExactly(chat: C.Store, minIdle: real, now: real)
    requires C.Valid(chat)
    ensures NotIdle(chat, minIdle, now).None? <==> Quiet(chat, minIdle, now)
    ensures FirstBusy(Listed(chat), chat.messages, now).None? <==> NothingBusy(chat, now)
  {
    BusyExactly(Listed(chat), chat.messages, now);
  }

  // ---------------------------------------------------------------- the decisions of a run

  /** The gates that need the settings alone. */
  function LoadGate(c: Config, i: Input): Option<Reason> {
    if !c.enabled && !i.force then Some(Disabled)
    else if !i.force && c.lastTriggered.Some? && i.now - c.lastTriggered.value < c.interval then Some(IntervalNotElapsed)
    else None
  }

  /** The task that would be handed out, as it stands in the queue. */
  function Peek(q: H.Queue, now: real): Option<H.Task>
    requires H.Valid(q)
  {
    H.ChooseKnown(q, now);
    var p := H.Pick(q, now);
    if p.None? then None else Some(q.tasks[p.value])
  }

  /** Whether the chat has to be idle; a forced run ignores what it finds. */
  predicate NeedsQuiet(pending: Option<H.Task>, i: Input) {
    !i.force && (pending.None? || !pending.value.interruptActive)
  }

  /** The reason to skip before anything is consumed. */
  function Gate(r: Runner, i: Input): Option<Reason>
    requires Valid(r)
  {
    var reason := LoadGate(r.config, i);
    if reason.Some? then reason
    else if NeedsQuiet(Peek(r.queue, i.now), i) then NotIdle(r.chat, r.config.minIdle, i.now)
    else None
  }

  /** The task handed out, as saved after it was triggered. */
  function Taking(q: H.Queue, now: real): Option<H.Task>
    requires H.Valid(q)
  {
    H.NextFrame(q, now);
    var p := H.Pick(q, now);
    if p.None? then None else Some(H.Next(q, now).tasks[p.value])
  }

  function Instructions(task: Option<H.Task>, i: Input): string {
    if task.Some? then task.value.text else if i.file.Some? then Strip(i.file.value) else ""
  }

  /** The reason to skip after consumption: the peeked task is gone, or there are no instructions. */
  function Obstacle(peeked: bool, task: Option<H.Task>, i: Input): Option<Reason> {
    if peeked && task.None? then Some(NoDueTask)
    else if task.None? && i.file.None? then Some(FileNotFound)
    else if Instructions(task, i) == "" then Some(FileEmpty)
    else None
  }

  /** How a prompt is laid out, given the heartbeat file's name, the instructions, the moment and the task. */
  type Format = (string, string, real, Option<H.Task>) -> string

  function PromptFor(c: Config, task: Option<H.Task>, i: Input, format: Format): string {
    format(c.heartbeatFile, Instructions(task, i), i.now, task)
  }

  /** The layout the program uses. */
  function Layout(show: Show): Format {
    (file: string, instructions: string, now: real, task: Option<H.Task>) => Prompt(file, instructions, now, task, show)
  }

  /** The chat accepts the text: it is not blank and not over the length limit. */
  predicate Fits(text: string) {
    Strip(text) != "" && |Strip(text)| <= C.MAX_CHAT_TEXT_LENGTH
  }

  function MessageOp(text: string, i: Input): S.Op {
    S.Append(C.User, text, None, Some(i.clientId))
  }

  function RecordOp(i: Input): S.Op {
    S.AppendRecord(C.StatusRecord, Some(i.first.messageId))
  }

  predicate Throttled(c: Config, reason: Reason, now: real) {
    c.lastSkipReason == Some(reason) && c.lastSkippedAt.Some? && now - c.lastSkippedAt.value < SKIP_STATE_WRITE_MIN_SECONDS
  }

  /** The settings as saved after a skip. */
  function Noted(c: Config, reason: Reason, now: real): Config {
    c.(lastSkippedAt := Some(now), lastSkipReason := Some(reason))
  }

  /** The settings as saved after a dispatch. */
  function Recorded(c: Config, task: Option<H.Task>, i: Input): Config {
    c.(lastTriggered := Some(i.now), lastMessage := Some(i.first.messageId),
       lastTask := TaskId(task), lastSkipReason := None)
  }

  function TaskId(task: Option<H.Task>): Option<string> {
    if task.Some? then Some(task.value.id) else None
  }

  // ---------------------------------------------------------------- one run with nothing in between

  /** A skip saves the settings that were loaded, unless the same reason was noted within five minutes. */
  function Skip(r: Runner, loaded: Config, reason: Reason, now: real): (Runner, Outcome) {
    (if Throttled(loaded, reason, now) then r else r.(config := Noted(loaded, reason, now)), Skipped(reason))
  }

  function QueueMessage(chat: C.Store, text: string, i: Input): C.Store
    requires C.Valid(chat) && FreshInput(chat, i)
  {
    S.StepValid(chat, MessageOp(text, i), i.first);
    S.Step(S.Step(chat, MessageOp(text, i), i.first), RecordOp(i), i.second)
  }

  /** From consumption on: what was loaded and whether a task was peeked at are from before. */
  function AfterGates(r: Runner, loaded: Config, peeked: bool, i: Input, format: Format): (Runner, Outcome)
    requires Valid(r) && FreshInput(r.chat, i)
  {
    var task := Taking(r.queue, i.now);
    var consumed := r.(queue := H.Next(r.queue, i.now));
    var obstacle := Obstacle(peeked, task, i);
    var text := PromptFor(loaded, task, i, format);
    if obstacle.Some? then Skip(consumed, loaded, obstacle.value, i.now)
    else if !Fits(text) then (consumed, Raised)
    else
      (Runner(Recorded(loaded, task, i), consumed.queue, QueueMessage(r.chat, text, i)),
       Dispatched(i.first.messageId, TaskId(task)))
  }

  function OneRun(r: Runner, i: Input, format: Format): (Runner, Outcome)
    requires Valid(r) && FreshInput(r.chat, i)
  {
    var gate := Gate(r, i);
    if gate.Some? then Skip(r, r.config, gate.value, i.now)
    else AfterGates(r, r.config, Peek(r.queue, i.now).Some?, i, format)
  }

  // ---------------------------------------------------------------- what one run does

  /** Peeking and taking at the same queue concern the same task, and a task always brings instructions. */
  lemma TakingFacts(q: H.Queue, i: Input)
    requires H.Valid(q)
    ensures Taking(q, i.now).Some? <==> H.Pick(q, i.now).Some?
    ensures Peek(q, i.now).Some? <==> H.Pick(q, i.now).Some?
    ensures H.Pick(q, i.now).Some? ==>
              && TaskId(Taking(q, i.now)) == H.Pick(q, i.now) && TaskId(Peek(q, i.now)) == H.Pick(q, i.now)
              && Taking(q, i.now).value == H.Triggered(Peek(q, i.now).value, i.now)
              && Instructions(Taking(q, i.now), i) != ""
    ensures H.Pick(q, i.now).None? ==> H.Next(q, i.now) == q
  {
    H.NextFrame(q, i.now);
  }

  lemma LateSkip(r: Runner, loaded: Config, peeked: bool, i: Input, format: Format, v: Runner)
    requires Valid(r) && FreshInput(r.chat, i) && v == AfterGates(r, loaded, peeked, i, format).0
    requires AfterGates(r, loaded, peeked, i, format).1.Skipped?
    ensures v.queue == r.queue && v.chat == r.chat
    ensures v.config.lastTriggered == r.config.lastTriggered || v.config.lastTriggered == loaded.lastTriggered
  {
    TakingFacts(r.queue, i);
  }

  /** Every skip leaves the task queue and the chat exactly as they were. */
  lemma SkipChangesNothing(r: Runner, i: Input, format: Format, v: Runner)
    requires Valid(r) && FreshInput(r.chat, i) && v == OneRun(r, i, format).0 && OneRun(r, i, format).1.Skipped?
    ensures v.queue == r.queue && v.chat == r.chat && v.config.lastTriggered == r.config.lastTriggered
  {
    if Gate(r, i).None? {
      LateSkip(r, r.config, Peek(r.queue, i.now).Some?, i, format, v);
    }
  }

  /** What an open gate means for an unforced run. */
  ghost predicate GateOpen(r: Runner, now: real, task: Option<string>)
    requires Valid(r)
  {
    && r.config.enabled
    && (r.config.lastTriggered.Some? ==> now - r.config.lastTriggered.value >= r.config.interval)
    && ((task.Some? && task.value in r.queue.tasks && r.queue.tasks[task.value].interruptActive)
        || Quiet(r.chat, r.config.minIdle, now))
  }

  lemma GateMeaning(r: Runner, i: Input)
    requires Valid(r) && !i.force
    ensures Gate(r, i).None? <==> GateOpen(r, i.now, H.Pick(r.queue, i.now))
  {
    H.ChooseKnown(r.queue, i.now);
    QuietExactly(r.chat, r.config.minIdle, i.now);
  }

  // ---------------------------------------------------------------- the message

  /** A queued user message with this text stands in the chat under this id. */
  ghost predicate HoldsPrompt(chat: C.Store, id: string, text: string) {
    id in chat.messages && chat.messages[id].role == C.User && chat.messages[id].status == C.Queued
    && chat.messages[id].text == Strip(text)
  }

  lemma PromptWritten(chat: C.Store, op: S.Op, e: S.Env, v: C.Store)
    requires C.Valid(chat) && S.FreshFor(chat, e) && op.Append? && S.Written(chat, op, e).Some? && v == S.Step(chat, op, e)
    ensures e.messageId in v.messages && v.messages[e.messageId] == S.NewMessage(chat, op, e)
  {
    S.StepWrites(chat, op, e, S.NewMessage(chat, op, e), v);
  }

  /** Appending a text that fits leaves a new queued message that holds it; any other changes nothing. */
  lemma AppendedExactly(chat: C.Store, text: string, i: Input, v: C.Store)
    requires C.Valid(chat) && S.FreshFor(chat, i.first) && v == S.Step(chat, MessageOp(text, i), i.first)
    ensures C.Valid(v) && i.first.messageId !in chat.messages
    ensures Fits(text) ==> HoldsPrompt(v, i.first.messageId, text)
    ensures !Fits(text) ==> v == chat
  {
    S.StepValid(chat, MessageOp(text, i), i.first);
    if Fits(text) {
      PromptWritten(chat, MessageOp(text, i), i.first, v);
    }
  }

  lemma RecordLeaves(chat: C.Store, i: Input, text: string, v: C.Store)
    requires C.Valid(chat) && S.FreshFor(chat, i.second) && HoldsPrompt(chat, i.first.messageId, text)
    requires v == S.Step(chat, RecordOp(i), i.second)
    ensures C.Valid(v) && HoldsPrompt(v, i.first.messageId, text)
  {
    S.StepValid(chat, RecordOp(i), i.second);
    S.QueuedStays(chat, RecordOp(i), i.second, i.first.messageId);
  }

  lemma StillFresh(chat: C.Store, text: string, i: Input, v: C.Store)
    requires C.Valid(chat) && FreshInput(chat, i) && v == S.Step(chat, MessageOp(text, i), i.first)
    ensures C.Valid(v) && S.FreshFor(v, i.second)
  {
    S.StepValid(chat, MessageOp(text, i), i.first);
  }

  /** The prompt ends up in the chat as a queued user message, and stays one when the record is added. */
  lemma MessageQueued(chat: C.Store, text: string, i: Input, v: C.Store)
    requires C.Valid(chat) && FreshInput(chat, i) && Fits(text) && v == QueueMessage(chat, text, i)
    ensures C.Valid(v) && i.first.messageId !in chat.messages && HoldsPrompt(v, i.first.messageId, text)
  {
    var chat1 := S.Step(chat, MessageOp(text, i), i.first);
    AppendedExactly(chat, text, i, chat1);
    StillFresh(chat, text, i, chat1);
    RecordLeaves(chat1, i, text, v);
  }

  // ---------------------------------------------------------------- conservation

  /** A new queued message holding this text has appeared. */
  ghost predicate NewlyQueued(before: C.Store, after: C.Store, text: string) {
    exists id :: id !in before.messages && HoldsPrompt(after, id, text)
  }

  lemma RunPastGates(r: Runner, i: Input, format: Format, id: string, v: Runner)
    requires Valid(r) && FreshInput(r.chat, i) && H.Pick(r.queue, i.now) == Some(id) && Gate(r, i).None?
    requires v == OneRun(r, i, format).0
    ensures id in r.queue.tasks && v.queue == H.Next(r.queue, i.now)
    ensures var text := PromptFor(r.config, Taking(r.queue, i.now), i, format);
            v.chat == if Fits(text) then QueueMessage(r.chat, text, i) else r.chat
  {
    H.ChooseKnown(r.queue, i.now);
    TakingFacts(r.queue, i);
  }

  /**
   A run that gets past its gates with a task to hand out raises that task's trigger count by one and every other
   task's by nothing; and it leaves a new queued message with the task's prompt if and only if the prompt fits the
   chat. The task is charged before the chat can refuse.
   */
  lemma ConservationExactly(r: Runner, i: Input, format: Format, id: string, v: Runner)
    requires Valid(r) && FreshInput(r.chat, i) && H.Pick(r.queue, i.now) == Some(id) && Gate(r, i).None?
    requires v == OneRun(r, i, format).0
    ensures id in r.queue.tasks && id in v.queue.tasks
    ensures v.queue.tasks[id].triggerCount == r.queue.tasks[id].triggerCount + 1
    ensures forall x :: x in r.queue.tasks && x != id ==> x in v.queue.tasks && v.queue.tasks[x] == r.queue.tasks[x]
    ensures var text := PromptFor(r.config, Taking(r.queue, i.now), i, format);
            && (NewlyQueued(r.chat, v.chat, text) <==> Fits(text))
            && (!Fits(text) ==> v.chat == r.chat)
  {
    H.NextFrame(r.queue, i.now);
    RunPastGates(r, i, format, id, v);
    var text := PromptFor(r.config, Taking(r.queue, i.now), i, format);
    if Fits(text) {
      MessageQueued(r.chat, text, i, v.chat);
    }
  }

  /** And a run that does not get past them charges nothing. */
  lemma GatedChargesNothing(r: Runner, i: Input, format: Format)
    requires Valid(r) && FreshInput(r.chat, i) && (Gate(r, i).Some? || H.Pick(r.queue, i.now).None?)
    ensures OneRun(r, i, format).0.queue == r.queue
  {
    TakingFacts(r.queue, i);
  }

  /** Instructions as the task store keeps them, and a target that is too long for a chat message. */
  predicate IsTooLong(text: string, target: string) {
    && text != "" && !IsSpace(text[|text| - 1])
    && |target| > C.MAX_CHAT_TEXT_LENGTH && !IsBlank("任务目标: " + target)
  }

  lemma LongTargetRefused(c: Config, t: H.Task, i: Input, show: Show)
    requires IsTooLong(t.text, t.meta.target)
    ensures !Fits(PromptFor(c, Some(t), i, Layout(show)))
  {
    LongTarget(c.heartbeatFile, i.now, t, show, C.MAX_CHAT_TEXT_LENGTH);
  }

  lemma TakingSays(q: H.Queue, i: Input, id: string)
    requires H.Valid(q) && H.Pick(q, i.now) == Some(id)
    ensures id in q.tasks && Taking(q, i.now).Some?
    ensures Taking(q, i.now).value.text == q.tasks[id].text && Taking(q, i.now).value.meta == q.tasks[id].meta
  {
    H.NextFrame(q, i.now);
  }

  /** Conservation does fail: a task whose target is over-long is charged and nothing is queued. */
  lemma LongTargetCharged(r: Runner, i: Input, show: Show, id: string, v: Runner)
    requires Valid(r) && FreshInput(r.chat, i) && H.Pick(r.queue, i.now) == Some(id) && Gate(r, i).None?
    requires id in r.queue.tasks && IsTooLong(r.queue.tasks[id].text, r.queue.tasks[id].meta.target)
    requires v == OneRun(r, i, Layout(show)).0
    ensures id in v.queue.tasks && v.queue.tasks[id].triggerCount == r.queue.tasks[id].triggerCount + 1
    ensures v.chat == r.chat
  {
    TakingSays(r.queue, i, id);
    LongTargetRefused(r.config, Taking(r.queue, i.now).value, i, show);
    ConservationExactly(r, i, Layout(show), id, v);
  }

  function Filler(n: nat): (s: string)
    ensures |s| == n && forall k :: 0 <= k < n ==> s[k] == 'x'
  {
    if n == 0 then "" else Filler(n - 1) + "x"
  }

  lemma FillerIsNotBlank(name: string, n: nat)
    requires n > 0
    ensures !IsBlank(name + Filler(n))
  {
    var line := name + Filler(n);
    assert line[|line| - 1] == 'x';
  }

  /** A freshly created task with such a target. */
  function LongTargetTask(id: string, now: real): H.Task {
    H.Task(id, "x", "", true, 1, H.Meta("", "", "", "", Filler(C.MAX_CHAT_TEXT_LENGTH + 1), ""),
           None, None, true, now, now, None, 0)
  }

  /** A queue of that one task, an empty chat, and the heartbeat enabled. */
  function LongTargetRunner(id: string, now: real): Runner {
    Runner(Config(true, 1.0, 0.0, "", None, None, None, None, None),
           H.Queue([id], map[id := LongTargetTask(id, now)], 0), C.EmptyStore)
  }

  /** The failure at a concrete task: one run triggers it once and leaves the chat empty. */
  lemma ChargedForNothing(id: string, i: Input, show: Show) returns (r: Runner, v: Runner)
    requires FreshInput(C.EmptyStore, i) && !i.force
    ensures r == LongTargetRunner(id, i.now) && Valid(r) && v == OneRun(r, i, Layout(show)).0
    ensures id in v.queue.tasks && v.queue.tasks[id].triggerCount == 1 && v.chat == C.EmptyStore
  {
    r := LongTargetRunner(id, i.now);
    v := OneRun(r, i, Layout(show)).0;
    H.PickOnly(r.queue, id, i.now);
    FillerIsNotBlank("任务目标: ", C.MAX_CHAT_TEXT_LENGTH + 1);
    LongTargetCharged(r, i, show, id, v);
  }

  // ---------------------------------------------------------------- the runner object

  class IdleRunner {
    var config: Config
    const tasks: HeartbeatStore.TaskStore
    const chat: ChatSession.Session

    constructor (config: Config, tasks: HeartbeatStore.TaskStore, chat: ChatSession.Session)
      ensures this.config == config && this.tasks == tasks && this.chat == chat
    {
      this.config, this.tasks, this.chat := config, tasks, chat;
    }

    ghost function State(): Runner
      reads this, tasks, chat
    {
      Runner(config, tasks.Q(), chat.State())
    }

    /** Notes a skip in the settings loaded and saves them, unless the same reason was noted within five minutes. */
    method RecordSkipped(loaded: Config, reason: Reason, now: real) returns (out: Outcome)
      modifies this
      ensures (Runner(config, tasks.Q(), chat.State()), out) == old(Skip(State(), loaded, reason, now))
    {
      if !(loaded.lastSkipReason == Some(reason) && loaded.lastSkippedAt.Some?
           && now - loaded.lastSkippedAt.value < SKIP_STATE_WRITE_MIN_SECONDS) {
        config := loaded.(lastSkippedAt := Some(now), lastSkipReason := Some(reason));
      }
      out := Skipped(reason);
    }

    /** The gates, evaluated before anything is consumed: the task queue is only peeked at. */
    method CheckGates(i: Input) returns (reason: Option<Reason>, pending: Option<H.Task>)
      requires Valid(State())
      modifies tasks
      ensures State() == old(State()) && reason == Gate(State(), i)
      ensures reason.None? ==> pending == Peek(State().queue, i.now)
    {
      pending := None;
      if !config.enabled && !i.force {
        return Some(Disabled), None;
      }
      if !i.force && config.lastTriggered.Some? && i.now - config.lastTriggered.value < config.interval {
        return Some(IntervalNotElapsed), None;
      }
      pending := tasks.NextTask(i.now, false);
      reason := None;
      if pending.None? || (!pending.value.interruptActive && !i.force) {
        var notIdle := NotIdle(chat.State(), config.minIdle, i.now);
        if notIdle.Some? && !i.force {
          reason := notIdle;
        }
      }
    }

    /** Queues the prompt and the status record about it; None when the chat refuses the prompt. */
    method QueuePrompt(text: string, i: Input) returns (m: Option<C.Message>)
      requires C.Valid(chat.State()) && FreshInput(chat.State(), i)
      modifies chat
      ensures m.Some? <==> Fits(text)
      ensures m.Some? ==> m.value.id == i.first.messageId && HoldsPrompt(chat.State(), i.first.messageId, text)
      ensures chat.State() == if Fits(text) then QueueMessage(old(chat.State()), text, i) else old(chat.State())
    {
      ghost var before := chat.State();
      StillFresh(before, text, i, S.Step(before, MessageOp(text, i), i.first));
      m := chat.AppendMessage(C.User, text, None, Some(i.clientId), i.first);
      if m.Some? {
        chat.AddRecord(C.StatusRecord, Some(m.value.id), i.second);
        MessageQueued(before, text, i, chat.State());
      }
    }

    /** The second half of a run, whatever the queue and the chat have become since the first. */
    method Proceed(loaded: Config, peeked: bool, i: Input, format: Format) returns (out: Outcome)
      requires Valid(State()) && FreshInput(chat.State(), i)
      modifies this, tasks, chat
      ensures (State(), out) == AfterGates(old(State()), loaded, peeked, i, format)
    {
      ghost var before := State();
      TakingFacts(before.queue, i);
      var task := tasks.NextTask(i.now, true);
      assert task == Taking(before.queue, i.now);
      if peeked && task.None? {
        out := RecordSkipped(loaded, NoDueTask, i.now);
        return;
      }
      if task.None? && i.file.None? {
        out := RecordSkipped(loaded, FileNotFound, i.now);
        return;
      }
      var instructions := if task.Some? then task.value.text else Strip(i.file.value);
      if instructions == "" {
        out := RecordSkipped(loaded, FileEmpty, i.now);
        return;
      }
      var m := QueuePrompt(format(loaded.heartbeatFile, instructions, i.now, task), i);
      if m.None? {
        return Raised;
      }
      var taskId := if task.Some? then Some(task.value.id) else None;
      config := loaded.(lastTriggered := Some(i.now), lastMessage := Some(m.value.id), lastTask := taskId, lastSkipReason := None);
      out := Dispatched(m.value.id, taskId);
    }

    method RunOnce(i: Input, format: Format) returns (out: Outcome)
      requires Valid(State()) && FreshInput(chat.State(), i)
      modifies this, tasks, chat
      ensures (State(), out) == OneRun(old(State()), i, format)
    {
      var loaded := config;
      var reason, pending := CheckGates(i);
      if reason.Some? {
        out := RecordSkipped(loaded, reason.value, i.now);
      } else {
        out := Proceed(loaded, pending.Some?, i, format);
      }
    }
  }
}
