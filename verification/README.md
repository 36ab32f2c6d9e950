# OmniDoer sidecar: a Dafny model of its state machines, stores and codecs

The Python sidecar of OmniDoer (`omnidoer/`) keeps its state in small locked JSON files and moves it forward
with a handful of state machines: an idle heartbeat that schedules background tasks, a store of control
requests that a user approves, denies or completes, a chat queue that feeds the local agent, a file-backed relay
that carries user input to the browser process, two stores that forget old data, and a few codecs. This project
models those parts and proves what they promise over whole runs.

`dafny verify dfyconfig.toml` checks everything. There is one module per component:

| files | component |
|---|---|
| `Chat`, `ChatStore`, `ChatRuns`, `ChatHistory`, `ChatSession` | the chat queue, its pruning, and what became of each message |
| `Heartbeat`, `HeartbeatRuns`, `HeartbeatPicks`, `HeartbeatTurns`, `HeartbeatStore` | the heartbeat queue, which task it hands out, and whose turn it is |
| `HeartbeatPrompt`, `HeartbeatRunner`, `HeartbeatOutcomes`, `HeartbeatSections`, `HeartbeatOverlap`, `HeartbeatSpacing` | the prompt, one run and its outcomes, its sections, runs that overlap, and how far apart heartbeats are |
| `Requests`, `RequestRuns`, `RequestInterleaving`, `Approval` | control requests and approvals |
| `StateLocks` | the lock table behind every state file |
| `EventNames`, `Relay`, `RelayTick`, `RelayRuns`, `RelayAnswers` | the cross-process input relay and its answers |
| `RateLimit`, `Nonces` | the stores that forget |
| `Markers`, `WebSocket`, `PaneIds` | chunked search, framing, session ids |
| `Redaction`, `Audit`, `AuditInterleaving` | structural redaction and the hash-chained log |

Where the source updates an object, the model has a class whose methods are proved equal to a function on the
old state; runs are sequences of states linked by those functions, and the main theorems are about every state of
every run. The functions those methods are proved against are in turn tied down by lemmas that do not mention them: what
goes first, what stays, what is answered and what is left on file is said in terms of the calls made, with the numbers and
names written out.

## How the source is read

- Times are real numbers; a clock reading is a parameter. Where a method reads the clock more than once and it
  matters (`get`, the expiry check, `update`), each reading is its own parameter.
- Identifiers drawn from `uuid4` are parameters required never to have been drawn before.
- JSON files round-trip, so a store is the value of its file. SHA-256 appears as a function assumed injective only in
  the lemmas that say so. The redaction patterns, Python's `str` and `lower`, and the writing of times and floating-point
  numbers are function parameters; what is assumed of them is a named predicate.
- One locked section is one step, which `StateLocks.SectionUndisturbed` justifies from the lock table up. A chat or task
  queue method is one section. A request method is two, so `RequestRuns` treats whole methods as steps and
  `RequestInterleaving` treats sections as steps, each thread writing back what it made of the record it read. A heartbeat
  run is a row of sections on three files, so `HeartbeatRunner.OneRun` is what they amount to with nothing in between
  (`HeartbeatOverlap.SectionsAreOneRun`), and `HeartbeatSections` lets anything happen between them.
- The relay and the audit log have no locks. There every file operation is its own step: drawing a name and publishing
  the file, reading and unlinking an input, checking, driving and answering an event, reading, judging and unlinking a
  result, reading the last hash and writing the event. Unlinking may fail, which the program ignores.

## Where a promise holds only on a condition

Each of these is false of the code without its condition, and where that is not plain, a lemma gives the run or the input at
which it fails. The conditions are exact.

- A heartbeat run that triggers a task queues a message for it if and only if the prompt fits the chat
  (`HeartbeatRunner.ConservationExactly`): the task is consumed before the chat can refuse, and a task's metadata has no
  length limit (`HeartbeatRunner.ChargedForNothing`).
- The task a run takes is the one its gates were passed for if and only if the queue picks the same task at both moments
  (`HeartbeatOverlap.UngatedTask`, `HeartbeatSections.TakenIsPeekedExactly`, `HeartbeatOverlap.SamePickIsGated`).
- A change of settings made during a heartbeat run survives the run's save if and only if it amounts to the settings the run
  had loaded, and so does the last trigger, unless the run dispatches and sets it (`HeartbeatOverlap.SaveUndoesExactly`,
  `HeartbeatOverlap.DisableUndone`).
- Later unforced runs are kept an interval away from a message already sent if and only if it is that long ago, or the run that
  saved last dispatched no earlier, or dispatched nothing and had loaded settings that knew of it
  (`HeartbeatSpacing.SpacingExactly`). Runs that do not overlap always are (`HeartbeatSpacing.DispatchesApart`); two runs at once
  send two messages at one moment (`HeartbeatSpacing.TwoRunsAtOnce`), and a skip saved late makes the next run dispatch too early
  although nothing else is under way (`HeartbeatSpacing.LateSkipForgets`).
- A request is single-use up to the first section that logs a further success on it when it is used up, other than the completion
  of a submission (`RequestInterleaving.SingleUseExactly`, `RequestInterleaving.LostDenial`); there is none unless a method writes
  the request back over a write it has not seen (`RequestInterleaving.SingleUseUnlessOverwritten`). `used` goes back to false
  exactly when such a write is an approval, a frame or an expiry of a request read unused
  (`RequestInterleaving.UsedTakenBackExactly`).
- An input event is consumed again if and only if its file could not be unlinked the time before, and is not then unlinked unread
  or cleared away (`RelayRuns.TakenAgainExactly`, `RelayRuns.DeliveredTwice`).
- Of two input events the earlier-stamped one reaches the browser first if and only if its tick listed the directory no later than
  the other's; unless it had to be left on file, if and only if it was published before the listing that took the later one
  (`RelayRuns.StampOrderExactly`, `RelayRuns.OutOfStampOrder`).
- A result is handed out a second time if and only if another consuming reader's unlink fell between this reader's read and its
  own, or one before that had failed (`RelayRuns.HandedAgainExactly`, `RelayRuns.HandedTwice`).
- An event is delivered under user control if and only if its request was not taken out of control since its check
  (`RelayRuns.DeliveredUnderControlExactly`, `RelayRuns.ReleasedAfterCheck`).
- An edit of the task queue keeps the turn if and only if the moved cursor lands on a place of the new ring that the task in
  turn held in the old one (`HeartbeatTurns.CreateTurnExactly`, `HeartbeatTurns.RemoveTurnExactly`). That is so where every task
  takes one place (`HeartbeatTurns.CreateKeepsTurn`, `HeartbeatTurns.RemoveKeepsTurn`), but the cursor moves by one place for a
  task that may take several (`HeartbeatTurns.WeightedTurnMoves`).
- Two devices share a nonce key if and only if one's name continues the other's across a colon (`Nonces.KeyExactly`,
  `Nonces.SharedKey`); devices whose names hold no colon never do (`Nonces.PlainNamesApart`).
- A signed message can be accepted a second time exactly when its timestamp was not strictly before the clock that first
  accepted it, or is not a number, which passes every comparison (`Nonces.NeverTwiceUnlessReplayable`,
  `Nonces.ReplayableIsReplayed`).
- Interleaved appends leave an audit log that verifies if and only if nothing was written between any thread's read of the last
  hash and its own write (`AuditInterleaving.VerifiesExactly`, `AuditInterleaving.ForkedChain`), and a single append does if and
  only if the caller's fields leave the link and the seal alone (`Audit.AppendVerifiesExactly`).
- What redaction drops cannot influence its output (`Redaction.RedactionIndependent`), except where it decides whether a node is
  sensitive: a name or a description is dropped from a sensitive node and may be all that makes it sensitive
  (`Redaction.NameDecides`), and a value printed as part of another node's attribute may do so where the words around it only
  form a secret when joined differently (`Redaction.SpanningMatchLeaks`). Objects that differ only in what is dropped from one of
  them are redacted alike if and only if both are sensitive, or neither is, or there is nothing to show
  (`Redaction.SensitivityDecides`).
- The marker search reports an empty marker missing from an empty file, and is exact otherwise (`Markers.ReportExact`).
- A pane id comes back from its session id exactly when it is at most 31 bytes long (`PaneIds.PaneRoundTripExactly`).

## Model

| member | source | states |
|---|---|---|
| `Chat.NewestIsNewest` | omnidoer/omni_control/chat.py:389-400 | sorting by sequence number and slicing off the last n keeps exactly the n newest: as many as possible, all newer than every one left out |
| `Chat.PruneKeeps` | omnidoer/omni_control/chat.py:367-402 | pruning only removes entries, never alters one, keeps every queued or streaming message, and leaves a well-formed store |
| `Chat.PruneSafe` | omnidoer/omni_control/chat.py:373-401 | every queued or streaming message survives, and so does every message passing the age cutoff that a kept record refers to |
| `Chat.PruneBounded` | omnidoer/omni_control/chat.py:389-401 | at most 140 records remain, and at most 220 messages beyond the active ones |
| `Chat.PruneIdempotent` | omnidoer/omni_control/chat.py:367-402 | at a fixed clock, pruning twice equals pruning once |
| `Chat.PruneExactly` | omnidoer/omni_control/chat.py:367-402 | exactly what stays: of the records created in the last three days or naming a message queued or streaming, the 140 newest; of the messages, those queued or streaming, and of those touched in the last three days the 80 newest and every one that a remaining record names |
| `ChatStore.FirstPending` | omnidoer/omni_control/chat.py:543-549 | none exactly when no user message is queued; otherwise a queued user message that goes first: a pause if any is queued, else a continuation or command-line message if any is, and the lowest sequence number within its kind, told by the client id prefixes |
| `ChatStore.WrittenSurvives` | omnidoer/omni_control/chat.py:598-623 | the message an operation has just written always survives the pruning of that very save |
| `ChatStore.StepOrigin` | omnidoer/omni_control/chat.py:483-668 | after any operation every stored message is untouched or the one written, keeps its sequence number, and no old message becomes queued again |
| `ChatStore.QueuedStays` | omnidoer/omni_control/chat.py:351-402 | a queued message stays, unchanged, through every operation except a reset or a write addressed to it |
| `ChatRuns.InvStep` | omnidoer/omni_control/chat.py:483-668 | every operation preserves the delivery invariant: nothing claimed is queued again, and whatever is queued is behind every earlier claim of its class |
| `ChatRuns.ClaimedAtMostOnce` | omnidoer/omni_control/chat.py:540-567 | in any run, across resets, no message is claimed twice |
| `ChatRuns.ClaimOrderIsAppendOrder` | omnidoer/omni_control/chat.py:117-123 | between resets, two messages of one priority class are claimed in the order they were appended |
| `ChatRuns.ClaimTakesTheBest` | omnidoer/omni_control/chat.py:543-555 | a claim in any run takes a message no worse by (priority, sequence) than any queued one |
| `ChatRuns.ClaimedByKind` | omnidoer/omni_control/chat.py:117-123 | in any run a claim with anything queued takes one message, marks it claimed and keeps it; pauses go before everything else, continuations and command-line messages before the rest, and within a kind the lowest sequence number, told by the client id prefixes |
| `ChatRuns.QueuedUntilTouched` | omnidoer/omni_control/chat.py:367-402 | over any stretch of a run without a reset or a write addressed to it, a queued message stays in the store unchanged |
| `ChatRuns.WaitsAtMost` | omnidoer/omni_control/chat.py:540-567 | while a message waits, every claim uses up one of the messages that were ahead of it or came in ahead of it |
| `ChatRuns.ClaimedInTurn` | omnidoer/omni_control/chat.py:540-567 | in any run without a reset in which only claims write to it, a queued message is claimed before there are more claims than messages ahead of it at the outset and better-class messages appended since |
| `ChatHistory.StoredIsHistory` | omnidoer/omni_control/chat.py:483-668 | in every state of every run, every stored message is exactly what the calls addressed to it amount to: its first role and client id, the text last given whole with every addition since, the status of the last touch, and the times of its touches |
| `ChatHistory.StreamedText` | omnidoer/omni_control/chat.py:569-596 | a message never given a new text holds its first text followed by every addition, in order |
| `ChatHistory.TouchedIsStored` | omnidoer/omni_control/chat.py:367-402 | what a call has just written, and the record about it with its kind and time, always survive the pruning of that call |
| `ChatHistory.AddedIsStored` | omnidoer/omni_control/chat.py:645-668 | a record added on its own is stored as given, under a number above every other |
| `ChatSession.Session.Save` | omnidoer/omni_control/chat.py:351-402 | saving replaces the store by its pruned form |
| `ChatSession.Session.WriteBack` | omnidoer/omni_control/chat.py:555-566 | the message and a record about it are stored under the next sequence numbers, then saved |
| `ChatSession.Session.AppendMessage` | omnidoer/omni_control/chat.py:483-538 | strips user text, then appends under the next sequence number with the resolved status, or refuses blank user text and over-long text and changes nothing |
| `ChatSession.Session.NextUserMessage` | omnidoer/omni_control/chat.py:540-567 | returns the queued user message that goes first by client id prefix and sequence number, none exactly if nothing is queued; claiming marks exactly that one with the time and stores it, peeking changes nothing |
| `ChatSession.Session.CompleteMessage` | omnidoer/omni_control/chat.py:598-623 | completes an existing message, with new text if given and not too long, otherwise changes nothing |
| `ChatSession.Session.CancelMessage` | omnidoer/omni_control/chat.py:625-643 | cancels an existing message, otherwise changes nothing |
| `ChatSession.Session.AddRecord` | omnidoer/omni_control/chat.py:645-668 | adds one record under the next record number and saves |
| `ChatSession.Session.Reset` | omnidoer/omni_control/chat.py:409-431 | hands back everything stored and restarts from an empty store with both counters at one |
| `Heartbeat.FixedFirst` | omnidoer/omni_control/heartbeat.py:460-494 | tier one is used exactly when some enabled fixed-interval task is due, and serves such a task; the ring only ever serves enabled tasks without an interval |
| `Heartbeat.ServesTheMostOverdue` | omnidoer/omni_control/heartbeat.py:468-476 | the fixed-interval task served beats every other due one by seconds overdue, then effective weight, then position |
| `Heartbeat.BeatsTotal` | omnidoer/omni_control/heartbeat.py:471-475 | that comparison never ties between two tasks of a queue |
| `Heartbeat.NextFrame` | omnidoer/omni_control/heartbeat.py:477-504 | a consuming call charges exactly the task it returns, by one trigger at the given time, and changes no other task nor the order |
| `Heartbeat.CreateValid` | omnidoer/omni_control/heartbeat.py:418-427 | inserting a fresh task at any position keeps the order a list of all tasks without repetition |
| `Heartbeat.RemoveValid` | omnidoer/omni_control/heartbeat.py:444-452 | so does removing one |
| `HeartbeatRuns.RivalsShrink` | omnidoer/omni_control/heartbeat.py:456-483 | while a due fixed-interval task waits, each call serves one task due no later than it and takes that task out of its way |
| `HeartbeatRuns.ServedWithinRivals` | omnidoer/omni_control/heartbeat.py:184-208 | a due fixed-interval task is served within as many calls as there are enabled fixed-interval tasks due no later than it |
| `HeartbeatRuns.NoStarvation` | omnidoer/omni_control/heartbeat.py:456-483 | hence within as many consuming calls as there are enabled fixed-interval tasks, under any non-decreasing clock |
| `HeartbeatRuns.TriggersSpaced` | omnidoer/omni_control/heartbeat.py:184-201 | in any run of creations, removals, toggles and calls, two triggers of one fixed-interval task are at least max(1, min_interval) seconds apart |
| `HeartbeatRuns.RingCount` | omnidoer/omni_control/heartbeat.py:485-492 | a task occurs in the ring exactly its effective weight many times if it is enabled and due, otherwise not at all |
| `HeartbeatRuns.WalksTheRing` | omnidoer/omni_control/heartbeat.py:495-502 | while nothing changes, successive calls walk the ring one position at a time from the cursor |
| `HeartbeatRuns.RingFair` | omnidoer/omni_control/heartbeat.py:485-504 | any len(ring) consecutive calls then trigger each ring task exactly its effective weight many times and nothing else, from any cursor |
| `HeartbeatPicks.WeightExactly` | omnidoer/omni_control/heartbeat.py:158-181 | without a deadline the effective weight is the larger of one and the weight; with one the excess is at least 100, 24, 16, 10, 7, 4, 2 if and only if the deadline is at most 0, 3, 7, 14, 30, 60, 120 days away, and always at least 1 |
| `HeartbeatPicks.TurnExactly` | omnidoer/omni_control/heartbeat.py:485-504 | so often is a ring task picked in one turn of the ring |
| `HeartbeatPicks.NearerServedMore` | omnidoer/omni_control/heartbeat.py:158-181 | of two ring tasks of equal weight the one with the nearer deadline, or with one at all, is picked at least as often in one turn of the ring, and both at least once |
| `HeartbeatPicks.DueExactly` | omnidoer/omni_control/heartbeat.py:184-208 | a task may be handed out exactly if it is enabled and has no interval, was never triggered, or was last triggered max(1, interval) seconds ago or longer |
| `HeartbeatPicks.PickExactly` | omnidoer/omni_control/heartbeat.py:456-504 | something is picked if and only if some task may be handed out, only such a task is, and one with an interval exactly if any such task may be |
| `HeartbeatPicks.ServesTheLongestWaiting` | omnidoer/omni_control/heartbeat.py:468-476 | the fixed-interval task picked became due no later than any other, then weighs no less, then comes no later in the order |
| `HeartbeatPicks.ChargedExactly` | omnidoer/omni_control/heartbeat.py:477-504 | the task picked is charged with one trigger at the given time, and no other task nor the order changes |
| `HeartbeatPicks.ToggledExactly` | omnidoer/omni_control/heartbeat.py:431-439 | toggling sets the switch and the time of one task and nothing else, and a task switched off is not picked |
| `HeartbeatTurns.CreateTurnExactly` | omnidoer/omni_control/heartbeat.py:418-427 | creating a task keeps the task in turn if and only if the moved cursor lands on a place of the longer ring that was its own |
| `HeartbeatTurns.CreateKeepsTurn` | omnidoer/omni_control/heartbeat.py:418-427 | which it does where every task takes one place |
| `HeartbeatTurns.RemoveTurnExactly` | omnidoer/omni_control/heartbeat.py:441-454 | the same for removing one |
| `HeartbeatTurns.RemoveKeepsTurn` | omnidoer/omni_control/heartbeat.py:441-454 | where every task takes one place, removing another keeps the turn, and removing the one in turn passes it to the next |
| `HeartbeatTurns.WeightedTurnMoves` | omnidoer/omni_control/heartbeat.py:418-427 | a weighted task put in front takes the turn away from the task that had it |
| `HeartbeatStore.TaskStore.Create` | omnidoer/omni_control/heartbeat.py:371-429 | stores a fresh, enabled, never triggered task with stripped text, title cut at 120 and metadata, weight and interval at least one, at the requested position; refuses exactly text that is blank or over 8000 characters, and limits no metadata |
| `HeartbeatStore.TaskStore.SetEnabled` | omnidoer/omni_control/heartbeat.py:431-439 | toggles an existing task and marks the time, or reports it missing and changes nothing |
| `HeartbeatStore.TaskStore.Remove` | omnidoer/omni_control/heartbeat.py:441-454 | removes an existing task and moves the cursor back past it, or reports it missing |
| `HeartbeatStore.TaskStore.BuildRing` | omnidoer/omni_control/heartbeat.py:485-492 | the loop builds the weighted ring, of which `HeartbeatRuns.RingCount` and `HeartbeatPicks.WeightExactly` say how often it names each task |
| `HeartbeatStore.TaskStore.Select` | omnidoer/omni_control/heartbeat.py:460-496 | the two tiers of selection, which `HeartbeatPicks.PickExactly` and `HeartbeatPicks.ServesTheLongestWaiting` describe without them |
| `HeartbeatStore.TaskStore.NextTask` | omnidoer/omni_control/heartbeat.py:456-504 | returns the selected task; consuming charges it and moves the cursor, peeking changes nothing |
| `HeartbeatRunner.SkipChangesNothing` | omnidoer/omni_control/heartbeat.py:628-668 | every skip leaves the task queue, the chat and the last trigger time as they were |
| `HeartbeatRunner.MessageQueued` | omnidoer/omni_control/heartbeat.py:669-695 | a prompt that fits ends up in the chat as a new queued user message with exactly that text, and stays one when the record is added |
| `HeartbeatRunner.ConservationExactly` | omnidoer/omni_control/heartbeat.py:654-695 | an uninterrupted run past its gates raises the picked task's trigger count by one and changes no other task, and leaves a new queued message holding the prompt if and only if the prompt fits; otherwise the chat is unchanged |
| `HeartbeatRunner.GatedChargesNothing` | omnidoer/omni_control/heartbeat.py:631-660 | a run stopped by its gates, or without a task to hand out, leaves the queue alone |
| `HeartbeatPrompt.PromptShows` | omnidoer/omni_control/heartbeat.py:525-561 | the prompt is at least as long as every metadata line it shows |
| `HeartbeatPrompt.LongTarget` | omnidoer/omni_control/heartbeat.py:525-561 | a task whose target exceeds any limit has a prompt that exceeds it |
| `HeartbeatPrompt.PromptSays` | omnidoer/omni_control/heartbeat.py:516-561 | the prompt of a task has the moment, its id, its title, its weight, its effective weight and the request as lines of their own, and ends with the instructions |
| `HeartbeatPrompt.PromptShowsEntries` | omnidoer/omni_control/heartbeat.py:525-561 | every entry of the task that says something is a line of its own |
| `HeartbeatPrompt.FilePromptSays` | omnidoer/omni_control/heartbeat.py:516-561 | the prompt without a task names the file and the moment, makes the request, and ends with what the file says |
| `HeartbeatRunner.LongTargetCharged` | omnidoer/omni_control/heartbeat.py:654-679 | a task whose target is too long for a chat message is charged and nothing is queued |
| `HeartbeatRunner.ChargedForNothing` | omnidoer/omni_control/heartbeat.py:654-679 | the same at a concrete task in a one-task queue and an empty chat |
| `HeartbeatRunner.QuietExactly` | omnidoer/omni_control/heartbeat.py:574-592 | the chat counts as idle if and only if no listed message is being worked on and nothing listed is newer than the idle time |
| `HeartbeatRunner.GateMeaning` | omnidoer/omni_control/heartbeat.py:631-653 | an unforced run passes its gates if and only if it is enabled, the interval has passed, and the peeked task may interrupt or no listed message is busy or recent |
| `HeartbeatOutcomes.IdleExactly` | omnidoer/omni_control/heartbeat.py:563-592 | the chat is idle if and only if no listed message is queued, claimed or streaming, unless it is not the user's and half an hour old, and none of the last 1000 messages and 140 records is newer than the idle time |
| `HeartbeatOutcomes.GateExactly` | omnidoer/omni_control/heartbeat.py:628-653 | which gate stops a run: disabled, too soon, somebody at work, or recent activity, each if and only if its condition holds, and none of a forced run |
| `HeartbeatOutcomes.OutcomeExactly` | omnidoer/omni_control/heartbeat.py:628-700 | the outcome of an uninterrupted run: stopped by its gate, no file, an empty file, a prompt the chat refuses, or dispatched, each if and only if its condition holds |
| `HeartbeatOutcomes.SettingsExactly` | omnidoer/omni_control/heartbeat.py:594-741 | what a run leaves in the settings: a note of a skip unless the same reason was noted within 300 seconds, the moment, message and task of a dispatch, and nothing else |
| `HeartbeatOutcomes.DispatchedIsQueued` | omnidoer/omni_control/heartbeat.py:669-703 | the message named in the settings after a dispatch is queued in the chat and holds the prompt |
| `HeartbeatOutcomes.DispatchedIsRecorded` | omnidoer/omni_control/heartbeat.py:669-695 | that message carries the run's client id, and a status record naming it is on file |
| `HeartbeatSections.TriggersAreRuns` | omnidoer/omni_control/heartbeat.py:628-710 | over any interleaving of sections, edits and other runs, a task's trigger count grows by exactly the consumptions logged for it |
| `HeartbeatSections.TriggersAreMessages` | omnidoer/omni_control/heartbeat.py:654-695 | the messages queued for a task are no more than its triggers, and as many exactly when no consumption of it is under way or was refused |
| `HeartbeatSections.SentExactlyWhenFits` | omnidoer/omni_control/heartbeat.py:669-679 | a consumption is sent exactly when its prompt fits, and then a new queued message holds it; otherwise the chat is unchanged |
| `HeartbeatSections.TakenIsPeekedExactly` | omnidoer/omni_control/heartbeat.py:642-659 | the task taken is the one peeked at if and only if the queue picks the same at both moments; if it picks none any more, the run is skipped for that |
| `HeartbeatSections.ClearMeans` | omnidoer/omni_control/heartbeat.py:574-653 | an unforced run about to consume has peeked at a task that may interrupt, or has scanned the chat and found nothing busy and nothing recent |
| `HeartbeatOverlap.SamePickIsGated` | omnidoer/omni_control/heartbeat.py:642-659 | when the task taken is the one peeked at, it may interrupt or the chat was found quiet |
| `HeartbeatOverlap.UngatedTask` | omnidoer/omni_control/heartbeat.py:642-659 | a task that may not interrupt is taken without any look at the chat when it replaces the peeked one |
| `HeartbeatOverlap.SaveUndoesExactly` | omnidoer/omni_control/heartbeat.py:630-741 | the final save puts back the settings loaded, and the last trigger too unless the run dispatched, so a change made meanwhile survives if and only if it amounts to what was loaded |
| `HeartbeatOverlap.DisableUndone` | omnidoer/omni_control/heartbeat.py:268-297 | switching the heartbeat off during a run is undone by the save, even of a run that only notes a skip |
| `HeartbeatOverlap.SectionsAreOneRun` | omnidoer/omni_control/heartbeat.py:628-710 | with nothing in between, the sections of a run amount to the function the runner object is proved against |
| `HeartbeatSpacing.CoversExactly` | omnidoer/omni_control/heartbeat.py:631-639 | with the heartbeat enabled, the gate keeps every later unforced run an interval away from a past moment if and only if the last trigger on file is no earlier, or the interval has passed |
| `HeartbeatSpacing.RecordsExactly` | omnidoer/omni_control/heartbeat.py:628-741 | in any run, overlapping or not, the settings on file know of a moment if and only if the run that saved last dispatched no earlier, or dispatched nothing and had loaded settings that knew of it |
| `HeartbeatSpacing.SpacingExactly` | omnidoer/omni_control/heartbeat.py:628-741 | at any point of any run, later unforced runs are kept an interval away from a message sent so far if and only if it is that long ago or the run that saved last knew of it |
| `HeartbeatSpacing.DispatchesApart` | omnidoer/omni_control/heartbeat.py:631-703 | hence, where runs do not overlap, every message sent is on record when a run begins, and an unforced run past the gate begins at least the interval after it |
| `HeartbeatSpacing.TwoRunsAtOnce` | omnidoer/omni_control/heartbeat.py:628-703 | two overlapping unforced runs both send a message at the same moment |
| `HeartbeatSpacing.LateSkipForgets` | omnidoer/omni_control/heartbeat.py:628-741 | a run that skips and saves after another has dispatched puts the old trigger back, and an unforced run begun when nothing is under way sends a message within the interval |
| `HeartbeatSpacing.LayoutFitsA` | omnidoer/omni_control/heartbeat.py:525-561 | the prompts of these runs do fit the chat, in the layout the program uses |
| `HeartbeatRunner.IdleRunner.CheckGates` | omnidoer/omni_control/heartbeat.py:631-653 | the gates are evaluated without changing anything, and the peeked task is handed on |
| `HeartbeatRunner.IdleRunner.QueuePrompt` | omnidoer/omni_control/heartbeat.py:669-695 | a prompt that fits is queued with its status record and stands in the chat; any other changes nothing |
| `HeartbeatRunner.IdleRunner.Proceed` | omnidoer/omni_control/heartbeat.py:654-741 | the second half of a run, from consumption to the save, whatever the queue and the chat have become since the first |
| `HeartbeatRunner.IdleRunner.RunOnce` | omnidoer/omni_control/heartbeat.py:628-710 | one uninterrupted run on the runner, the task store and the chat store together |
| `Requests.ActKeepsIdentity` | omnidoer/omni_control/requests.py:214-332 | no method changes a request's id, type, origin, context, expiry, fingerprint or single-use flag |
| `Requests.CreateIsNew` | omnidoer/omni_control/requests.py:138-185 | a new request carries what it was given, is valid until its time to live is over, and is pending, or under user control for the two handoff types, unused, undecided and without submission or frame |
| `Requests.ReadExactly` | omnidoer/omni_control/requests.py:120-125 | reading marks a request expired exactly if it is pending, under user control, fulfilled or approved and its time is up, and changes nothing else |
| `Requests.RepliesExactly` | omnidoer/omni_control/requests.py:214-332 | what every method answers, from the record and the clock: wrong type, expired, used up, stale frame, not approved or done, each exactly when its condition holds; a frame is current if and only if none is on file or it is the one named and at most 30 seconds old |
| `Requests.DoneLeaves` | omnidoer/omni_control/requests.py:222-332 | what a method that is done leaves on file, action by action: status, owner, frame, submitted envelope, decision, completion and use |
| `Requests.RefusedLeaves` | omnidoer/omni_control/requests.py:214-220 | a method that is refused leaves the record as read, or marks it expired |
| `Requests.RequestStore.CreateRequest` | omnidoer/omni_control/requests.py:138-185 | stores a fresh request of one of the twenty known types, valid for the given time, unused and undecided: pending, or under user control for the two handoff types; refuses unknown types |
| `Requests.RequestStore.ListRequests` | omnidoer/omni_control/requests.py:127-136 | marks every overdue expirable request expired, changes nothing else, and shows those not expired |
| `Requests.RequestStore.GetRequest` | omnidoer/omni_control/requests.py:187-197 | returns the request after expiring it if overdue; an unknown id changes nothing |
| `Requests.RequestStore.UpdateRequest` | omnidoer/omni_control/requests.py:199-212 | writes back one whole record |
| `Requests.RequestStore.EnsureActionable` | omnidoer/omni_control/requests.py:214-220 | refuses and records an expired request whatever its status, refuses a used one except a fulfilled one where allowed |
| `Requests.RequestStore.CancelRequest` | omnidoer/omni_control/requests.py:251-260 | cancels a request that is neither completed nor aborted, otherwise returns it untouched |
| `Requests.RequestStore.Perform` | omnidoer/omni_control/requests.py:222-332 | the read, check, change and write of submit, approve, deny, complete, release, frame and consume calls, of which `Requests.RepliesExactly`, `Requests.DoneLeaves` and `Requests.RefusedLeaves` say what is answered and left |
| `RequestRuns.ActAgrees` | omnidoer/omni_control/requests.py:214-332 | every call keeps a request and its history of successes in agreement |
| `RequestRuns.UsedAtMostOnce` | omnidoer/omni_control/requests.py:214-281 | in any sequential run at most one success uses a request up, except one completion right after a submission, and no success is after the expiry |
| `RequestRuns.UsedForever` | omnidoer/omni_control/requests.py:222-332 | in any sequential run a request is never lost, its successes are only extended, and used never goes back to false |
| `RequestRuns.LoggedExactly` | omnidoer/omni_control/requests.py:222-332 | a success is logged for every call that is done, except those that keep or check a frame or cancel what is settled, with its kind, its time and the envelope submitted |
| `RequestRuns.StoredAsLogged` | omnidoer/omni_control/requests.py:222-332 | in any sequential run the stored ciphertext is the envelope of the one logged submission and none without one, the status is the one the last success leads to unless expired, the owner is the user exactly until a handoff is handed back, and the user has completed it exactly if the last success is not a cancellation |
| `RequestRuns.FrameStays` | omnidoer/omni_control/requests.py:283-321 | the frame on file stays until another is recorded |
| `RequestInterleaving.NothingLost` | omnidoer/omni_control/requests.py:180-207 | under any interleaving of sections no request is ever lost |
| `RequestInterleaving.UntouchedUnlessSwept` | omnidoer/omni_control/requests.py:120-136 | a request no section addresses keeps its record, unless a list found it expirable and overdue and marked it expired |
| `RequestInterleaving.SingleUseUnlessOverwritten` | omnidoer/omni_control/requests.py:187-281 | in any interleaved run in which no write to a request falls between a method's read and its write, at most one success uses it up, except one completion right after a submission, none is after its expiry, and the record shows the envelope, status, owner and completion its successes lead to |
| `RequestInterleaving.SingleUseExactly` | omnidoer/omni_control/requests.py:187-281 | in every interleaved run, single use has held up to a point if and only if no section so far logged a further success on a request used up, other than the completion of a submission |
| `RequestInterleaving.UsedUnlessOverwritten` | omnidoer/omni_control/requests.py:187-332 | in such a run used never goes back to false |
| `RequestInterleaving.UsedTakenBackExactly` | omnidoer/omni_control/requests.py:199-249 | in every run, a section takes used back exactly when it writes an approval, a frame or an expiry of a request that was read unused and is used by now |
| `RequestInterleaving.OverwritesExactly` | omnidoer/omni_control/requests.py:187-212 | a write is made over one its thread has not seen exactly when some section between its read and its write wrote the same request |
| `RequestInterleaving.LostDenial` | omnidoer/omni_control/requests.py:233-249 | a run in which a denial and an approval both read the pending request leaves it approved and unused after two successes |
| `Approval.NormalizeIdempotent` | omnidoer/omni_approval/approval.py:37-46 | normal values are their own normal form, at every depth |
| `Prelude.StripExactly` | omnidoer/omni_approval/approval.py:41-46 | two texts are the same once stripped if and only if they differ at most in the white space around them |
| `Prelude.AsciiSpace` | omnidoer/omni_approval/approval.py:41-42 | of the ASCII characters, exactly tab to carriage return, the four separators and the blank count as white space |
| `Approval.NormalizeExactly` | omnidoer/omni_approval/approval.py:37-46 | two values have the same normal form if and only if a reviewer cannot tell them apart: texts up to white space around them, lists item by item, tables key by key |
| `Approval.ScopeExactly` | omnidoer/omni_approval/approval.py:49-65 | two deeds have the same scope if and only if address, summary and origin shown, and each of the other eighteen reviewed fields by name, are present alike and read the same |
| `Approval.BuildScope` | omnidoer/omni_approval/approval.py:57-65 | the loop yields the base entries overridden by the reviewed details among the given fields; `Approval.ScopeExactly` says what that tells apart |
| `Approval.OriginCanBeHidden` | omnidoer/omni_approval/approval.py:57-64 | details that carry an origin make the scope independent of the origin argument |
| `Approval.VerifyApprovalScope` | omnidoer/omni_approval/approval.py:113-144 | the checks in order, then consumption, on the store object; `Approval.VerdictExactly` and `Approval.UseLeaves` say what is answered and left |
| `Approval.UseIsVerify` | omnidoer/omni_approval/approval.py:123-144 | a use is exactly a read followed, when granted and wanted, by a consumption |
| `Approval.SpentAtMostOnce` | omnidoer/omni_approval/approval.py:142-143 | in any run no approval is spent twice |
| `Approval.GrantedMeansReviewed` | omnidoer/omni_approval/approval.py:124-143 | a use is granted only if the latest decision was an approval, the request is unused and unexpired, address, summary, origin and every reviewed field read as shown to the user, and the page's own origin is the one asked for |
| `Approval.VerdictExactly` | omnidoer/omni_approval/approval.py:113-144 | in any run every use is answered by the history and what the user was shown: granted if and only if the request stands approved, everything reads the same, the origin is right and it is in time; otherwise refused for the first reason that applies |
| `Approval.UseLeaves` | omnidoer/omni_approval/approval.py:123-144 | a granted consuming use leaves the request consumed, any other use leaves it unused and at most marked expired, and no use touches another request |
| `StateLocks.LockTable.LockForPath` | omnidoer/omni_control/state_io.py:22-29 | returns the path's lock, making a new one only for a new path, and changes no other path's lock |
| `StateLocks.StepKeeps` | omnidoer/omni_control/state_io.py:22-36 | every lookup, acquisition, write and release keeps one lock per path and the owner's count of sections |
| `StateLocks.OneThreadPerFile` | omnidoer/omni_control/state_io.py:32-36 | under any interleaving no two threads are inside sections of one file |
| `StateLocks.BlockedExactly` | omnidoer/omni_control/state_io.py:14-36 | a thread waits if and only if another thread is inside a section of the same file: sections nest, and files do not block one another |
| `StateLocks.SectionUndisturbed` | omnidoer/omni_control/state_io.py:32-36 | throughout a section its file changes only by the thread's own writes |
| `StateLocks.FindsOwnWrite` | omnidoer/omni_control/state_io.py:32-36 | so within a section a thread finds what it wrote last |
| `RateLimit.ForgettingIsInvisible` | omnidoer/omni_control/rate_limit.py:22-47 | under a non-decreasing clock, over any run on any keys, every verdict is that of a limiter that forgets nothing |
| `RateLimit.VerdictExactly` | omnidoer/omni_control/rate_limit.py:22-47 | every verdict from the calls before it: locked until the last lockout since the key was cleared is over, otherwise refused if and only if the attempts recorded since one window ago have reached the limit |
| `RateLimit.AtMostTheLimit` | omnidoer/omni_control/rate_limit.py:27-41 | with no clear of a key, at most max_attempts successes of check_and_record in any closed interval of one window |
| `RateLimit.RateLimiter.CheckKey` | omnidoer/omni_control/rate_limit.py:22-30 | rejects while locked, else prunes and either locks or accepts |
| `RateLimit.RateLimiter.Pruned` | omnidoer/omni_control/rate_limit.py:27 | keeps, in order, exactly the attempts still in the window |
| `RateLimit.RateLimiter.RecordFailure` | omnidoer/omni_control/rate_limit.py:32-36 | prunes and appends the attempt |
| `RateLimit.RateLimiter.CheckAndRecordKey` | omnidoer/omni_control/rate_limit.py:38-41 | records exactly when the check accepts |
| `RateLimit.RateLimiter.Clear` | omnidoer/omni_control/rate_limit.py:43-44 | forgets one key |
| `RateLimit.RateLimiter.ClearAll` | omnidoer/omni_control/rate_limit.py:46-47 | forgets every key |
| `Nonces.DeviceNonceStore.ConsumeMessage` | omnidoer/omni_control/device_signing.py:112-126 | the parse, window and replay checks; acceptance drops expired nonces and records this one, refusal writes nothing |
| `Nonces.ForgettingIsInvisible` | omnidoer/omni_control/device_signing.py:121-126 | under a non-decreasing clock every answer is that of a store that keeps every acceptance |
| `Nonces.AnswersExactly` | omnidoer/omni_control/device_signing.py:112-126 | every answer from the calls before it: the timestamp must parse and be a number within the skew on either side, or not a number; then the message is accepted if and only if no unexpired earlier acceptance has the same device, colon and nonce |
| `Nonces.KeyExactly` | omnidoer/omni_control/device_signing.py:120 | two keys are equal if and only if device and nonce are, or one device's name continues the other's across a colon |
| `Nonces.PlainNamesApart` | omnidoer/omni_control/device_signing.py:120 | so devices whose names hold no colon share a key only with themselves, under the same nonce |
| `Nonces.SharedKey` | omnidoer/omni_control/device_signing.py:120-124 | two devices whose names do, and whose keys are equal: the second is refused as a replay |
| `Nonces.AcceptancesApart` | omnidoer/omni_control/device_signing.py:121-125 | two acceptances of one device and nonce are at least the first call's skew apart |
| `Nonces.NeverTwiceUnlessReplayable` | omnidoer/omni_control/device_signing.py:115-125 | with one skew, a message accepted twice carried a timestamp that is not a number or not strictly before its first acceptance |
| `Nonces.ReplayableIsReplayed` | omnidoer/omni_control/device_signing.py:119-125 | and every such message is in fact accepted again one skew later |
| `Markers.AcrossTheBoundary` | omnidoer/omni_control/chat_runner.py:185-189 | an occurrence in what has been read is an old one or lies within the window |
| `Markers.ScanChunks` | omnidoer/omni_control/chat_runner.py:177-189 | the loop leaves exactly the markers not seen in the whole content |
| `Markers.AmongConcat` | omnidoer/omni_control/chat_runner.py:190 | the report goes through the list in order, with repetitions |
| `Markers.AmongOne` | omnidoer/omni_control/chat_runner.py:190 | each marker of the list is reported once if it is missing |
| `Markers.MissingBinaryMarkers` | omnidoer/omni_control/chat_runner.py:176-190 | for every content, chunk size and non-empty marker list, the missing markers are reported in list order, exactly |
| `Markers.MissingFileMarkers` | omnidoer/omni_control/chat_runner.py:483-499 | the same for source files, where the list may be empty |
| `Markers.ReportExact` | omnidoer/omni_control/chat_runner.py:181-190 | reported missing means not occurring, for every marker, exactly unless an empty marker is sought in an empty file |
| `WebSocket.HeaderDeclares` | omnidoer/omni_control/websocket.py:40-59 | the header is that of a final, unmasked text frame and declares the payload length, under section 5.2 of RFC 6455 |
| `WebSocket.HeaderMinimal` | omnidoer/omni_control/websocket.py:41-59 | no header declaring the same length is shorter |
| `WebSocket.ParseTextFrame` | omnidoer/omni_control/websocket.py:38-60 | a reader recovers the payload and whatever follows the frame |
| `WebSocket.StreamRoundTrip` | omnidoer/omni_control/websocket.py:38-60 | any concatenation of frames splits back into exactly the payloads |
| `PaneIds.EncodeRoundTrip` | omnidoer/omni_control/tui_legacy_relay.py:133-144 | unpadded base64url decodes back, for every length |
| `PaneIds.GroupExactly` | omnidoer/omni_control/tui_legacy_relay.py:134 | every three bytes, and what is left over filled up with zero bits, read as the same number as their six-bit groups |
| `PaneIds.LetterExactly` | omnidoer/omni_control/tui_legacy_relay.py:134 | the groups are written in the alphabet of section 5 of RFC 4648 |
| `PaneIds.SessionExactly` | omnidoer/omni_control/tui_legacy_relay.py:132-135 | a session id is the prefix and the encoded pane, or the first 48 characters of that |
| `PaneIds.PaneExactly` | omnidoer/omni_control/tui_legacy_relay.py:138-152 | a session id is decoded, read in the older spelling with dots for underscores, or stands for no pane, by its beginning |
| `PaneIds.SessionIdValid` | omnidoer/omni_control/chat.py:126-130 | every pane's session id passes validation unchanged |
| `PaneIds.ValidateExactly` | omnidoer/omni_control/chat.py:126-130 | no id or a blank one stands for the default id; any other is accepted, stripped, if and only if it is made of at most 48 letters, digits, hyphens and underscores |
| `PaneIds.PaneRoundTripExactly` | omnidoer/omni_control/tui_legacy_relay.py:132-146 | the pane id comes back from its session id if and only if it is at most 31 bytes long |
| `PaneIds.PaneIdsInjective` | omnidoer/omni_control/tui_legacy_relay.py:132-135 | up to 31 bytes different panes have different session ids |
| `Redaction.RedactionIndependent` | omnidoer/omni_observer/redactor.py:49-101 | snapshots of any depth that differ only in values redaction drops are redacted to the same output, also where consulted attributes are nested; a name or description may differ where both nodes are sensitive |
| `Redaction.DifferenceBetrays` | omnidoer/omni_observer/redactor.py:49-64 | two values of a consulted attribute that differ only under secret-named keys, or in value-like entries of plainly sensitive nodes, both name a secret when printed |
| `Redaction.SensitivityDecides` | omnidoer/omni_observer/redactor.py:77-101 | two objects that differ only in what is dropped from one of them at least are redacted alike if and only if both are sensitive, or neither is, or the other has nothing to show that is dropped from it |
| `Redaction.SpanningMatchLeaks` | omnidoer/omni_observer/redactor.py:49-64 | a nested node whose type and name join to a secret word is redacted alike for two values, but the node it labels is not |
| `Redaction.NameDecides` | omnidoer/omni_observer/redactor.py:49-97 | two nodes that differ only in a name, dropped from the first, are redacted differently because that name makes the first sensitive |
| `Redaction.SecretNamesAlike` | omnidoer/omni_observer/redactor.py:49-97 | two nodes named by any two secret words are redacted alike |
| `Redaction.OutputIsClean` | omnidoer/omni_observer/redactor.py:77-101 | every text in the output is the placeholder or what the patterns leave of the text in the same place of the input, everything else is as it was, and outside label maps every secret-named key holds the placeholder |
| `Redaction.RedactExactly` | omnidoer/omni_observer/redactor.py:77-101 | the output is the one value with the patterns replaced in every text, every entry under a secret-named key hidden, and the value, text, name and description of every node hidden whose nine printed attributes, joined, name a secret; label maps have only their texts replaced |
| `Redaction.SensitiveExactly` | omnidoer/omni_observer/redactor.py:49-64 | a node is sensitive if and only if its nine named attributes, printed and joined by spaces, name a secret |
| `Audit.AuditLog.AppendEvent` | omnidoer/omni_audit/audit.py:28-43 | appends the redacted event linked to the last hash and sealed with its own |
| `Audit.AuditLog.Verify` | omnidoer/omni_audit/audit.py:48-60 | the loop accepts exactly the logs in which every event links to the one before and carries its own hash |
| `Audit.AppendLogs` | omnidoer/omni_audit/audit.py:28-43 | an append adds one event that holds the caller's fields, the time, the type and the last hash, redacted, under the hash of exactly that; it is refused only if the last event has no hash |
| `Audit.RunLogs` | omnidoer/omni_audit/audit.py:28-43 | in any run of appends every event holds what its own call was given, and the hash of the event before it |
| `Audit.PrefixVerifies` | omnidoer/omni_audit/audit.py:48-60 | every prefix of a verifying log verifies |
| `Audit.AppendVerifiesExactly` | omnidoer/omni_audit/audit.py:28-43 | appending to a verifying log yields a verifying log if and only if the fields leave the link and the seal alone |
| `Audit.RunsVerify` | omnidoer/omni_audit/audit.py:28-60 | every sequential run of such appends yields a log that verifies |
| `Audit.LastHashDetermines` | omnidoer/omni_audit/audit.py:48-60 | two verifying logs with the same last hash are equal |
| `AuditInterleaving.VerifiesExactly` | omnidoer/omni_audit/audit.py:28-43 | under any interleaving of reads and writes the log verifies if and only if nothing was written between any thread's read and its own write |
| `AuditInterleaving.WriteLogs` | omnidoer/omni_audit/audit.py:28-43 | a write adds one event that holds what its call was given and the hash its thread read |
| `AuditInterleaving.ForkedChain` | omnidoer/omni_audit/audit.py:28-43 | two threads that read the same last hash leave a log that does not verify |
| `EventNames.NameOrder` | omnidoer/omni_takeover/cross_process.py:190-199 | within nineteen-digit stamps, name order and stamp order agree |
| `EventNames.TiesByTail` | omnidoer/omni_takeover/cross_process.py:191 | equal stamps are ordered by the random tails alone |
| `EventNames.DecimalReads` | omnidoer/omni_takeover/cross_process.py:191 | the numeral of a stamp is made of digits, reads as that number and has no zero in front |
| `EventNames.WiderSortsFirstExactly` | omnidoer/omni_takeover/cross_process.py:286 | a wider stamp sorts before a narrower one exactly when its leading digits make the smaller number |
| `EventNames.Sorted` | omnidoer/omni_takeover/cross_process.py:286 | the listing contains exactly the pending names, in dictionary order |
| `Relay.StepKeeps` | omnidoer/omni_takeover/cross_process.py:190-351 | every step of every party, at any point of a tick, preserves the relay invariant |
| `RelayRuns.DeliveredAtMostOnce` | omnidoer/omni_takeover/cross_process.py:283-344 | over any run deliveries are different consumptions in their order, and one event reaches the browser again only if its file could not be unlinked the time before |
| `RelayRuns.TakenAgainExactly` | omnidoer/omni_takeover/cross_process.py:283-298 | a consumed event is consumed again, or waits to be, only if the step that should have unlinked its file failed; and then always, unless it is unlinked unread or the context is cleared |
| `RelayRuns.DeliveredTwice` | omnidoer/omni_takeover/cross_process.py:283-298 | a file that cannot be unlinked has its event delivered by two ticks |
| `RelayRuns.StampOrderExactly` | omnidoer/omni_takeover/cross_process.py:190-298 | of two events the earlier-stamped one is delivered first if and only if its tick listed the directory no later than the other's; and, unless it had to be left on file, if and only if it had been published when the other's tick listed the directory |
| `RelayRuns.LeftExactly` | omnidoer/omni_takeover/cross_process.py:293-297 | an event counts as left on file exactly when a step failed to unlink it |
| `RelayRuns.PublishedLaterDeliveredLater` | omnidoer/omni_takeover/cross_process.py:190-298 | an event published only after another was listed is delivered after it, whatever the stamps |
| `RelayRuns.OutOfStampOrder` | omnidoer/omni_takeover/cross_process.py:190-201 | a name drawn first and published after a tick took the other file is delivered second |
| `RelayRuns.OutOfPublicationOrder` | omnidoer/omni_takeover/cross_process.py:283-298 | within one listing the stamps decide, not the order of publication |
| `RelayRuns.OneResultEach` | omnidoer/omni_takeover/cross_process.py:334-350 | between ticks every consumption has exactly one result written for it, and two results carry one id only after a failed unlink |
| `RelayRuns.NoEventLost` | omnidoer/omni_takeover/cross_process.py:283-298 | a published event is pending, has been consumed, or was unlinked although it could not be read, as long as the context is not cleared after its publication |
| `RelayRuns.HandedFresh` | omnidoer/omni_takeover/cross_process.py:219-244 | a result handed to a consuming reader is an answer to that event and at most 30.0 seconds old |
| `RelayAnswers.AnswerExactly` | omnidoer/omni_takeover/cross_process.py:334-350 | an event reached the browser if and only if it parsed and its request was in user control at its check, and its answer says applied if and only if the browser then accepted it; the answer carries the clock at which it was written |
| `RelayAnswers.AnswerStays` | omnidoer/omni_takeover/cross_process.py:219-280 | for thirty seconds there is an answer on file, this or a later one, unless a reader unlinks it or the context is cleared |
| `RelayAnswers.DiscardedIsOld` | omnidoer/omni_takeover/cross_process.py:266-280 | only answers more than thirty seconds old are discarded |
| `RelayAnswers.JudgedExactly` | omnidoer/omni_takeover/cross_process.py:219-244 | a reader gets the answer it found if and only if that is at most 30.0 seconds old when it judges its age: at once if it does not consume it; otherwise it goes on to unlink it |
| `RelayAnswers.HandedExactly` | omnidoer/omni_takeover/cross_process.py:219-244 | a reader that leaves was handed the answer it found, as it was given and with its age, if and only if that was at most 30.0 seconds old when judged |
| `RelayAnswers.LooksExactly` | omnidoer/omni_takeover/cross_process.py:227-231 | a reader finds what is on file and only that |
| `RelayRuns.HandedAgainExactly` | omnidoer/omni_takeover/cross_process.py:219-244 | an answer is handed over again if and only if another consuming reader handed it out between this reader's read and its own unlink, or one did before and failed to unlink it |
| `RelayRuns.HandedTwice` | omnidoer/omni_takeover/cross_process.py:219-244 | two consuming readers that both read before either unlinks are both handed the result |
| `RelayRuns.DeliveredUnderControlExactly` | omnidoer/omni_takeover/relay.py:103-111 | every delivery follows a check of that event that found its request in user control, and is still under control if and only if the request was not taken out since |
| `RelayRuns.OnlyDriveDelivers` | omnidoer/omni_takeover/relay.py:103-111 | nothing reaches the browser by any other step, and what does is the event that was checked |
| `RelayRuns.ReleasedAfterCheck` | omnidoer/omni_takeover/relay.py:105-111 | a run in which a request released between check and delivery has its event delivered |
| `RelayTick.TakeAllGets` | omnidoer/omni_takeover/cross_process.py:283-298 | an uninterrupted tick holds exactly the payloads it listed, in name order |
| `RelayTick.AnsweredOwn` | omnidoer/omni_takeover/cross_process.py:334-350 | every event of a tick has its own answer on file |
| `RelayTick.AnsweredOthers` | omnidoer/omni_takeover/cross_process.py:334-350 | and no other answer has changed |
| `RelayTick.KeptExactly` | omnidoer/omni_takeover/cross_process.py:266-280 | what a tick leaves of the results on file: exactly those at most 30.0 seconds old or that cannot be unlinked, unchanged |
| `RelayTick.ReachedExactly` | omnidoer/omni_takeover/cross_process.py:334-350 | exactly the events that parse and whose request is in user control reach the browser |
| `RelayTick.TickIsPublishTick` | omnidoer/omni_takeover/cross_process.py:333-350 | the steps of a tick with nothing in between lead to exactly what the tick method computes, whichever files cannot be unlinked |
| `RelayTick.Directory.ConsumeInputEvents` | omnidoer/omni_takeover/cross_process.py:283-298 | returns the payloads of all pending files in name order and leaves exactly those that cannot be unlinked |
| `RelayTick.Directory.ReadInputEventResult` | omnidoer/omni_takeover/cross_process.py:219-244 | returns the result on file if and only if it is at most 30.0 seconds old; it goes if it was consumed or older and can be unlinked, and a failed unlink changes nothing about what is returned |
| `RelayTick.Directory.CleanupInputEventResults` | omnidoer/omni_takeover/cross_process.py:266-280 | a result stays, as it is, if and only if it is at most 30.0 seconds old or cannot be unlinked |
| `RelayTick.Directory.PublishTick` | omnidoer/omni_takeover/cross_process.py:333-350 | one uninterrupted tick: stale results go, all pending events are taken, those admitted reach the browser in order, each is answered, and only files that cannot be unlinked stay |

## Left out

- HTTP routing, CLI dispatch, process launching, tmux and browser automation: foreign effects without logic of their own.
- ECDSA, the secure channel and the vault: library cryptography.
- The contents of the redaction patterns and of the click classifier: text heuristics, parameters here.
- `policy.py`, `cloud.py`, `tasks.py`, `devices.py`, `sessions.py`, `pairing.py`: decision tables and smaller versions of the machines above.
- Chat attachments, sources, authors and reply links: carried along unchanged by every operation.
- Loading of hand-edited or older files (`_load_payload` repairs): stores here are those the program itself writes.
- Input and output errors other than an unreadable input event and a failed unlink in the relay, and two programs sharing one locked file.
- Which events the program appends to the audit log: any events are appended here.
- Several heartbeat sessions and queue files at once: one chat and one queue.
- The temporary file behind each write and its renaming: a write replaces the file in one step.
- Takeover coordinate bounds: a table of event types.
- Requests.RequestStore.Perform: `structured_details` and the cancel reason are not part of the record.
- PaneIds.EncodeRoundTrip: pane ids are their UTF-8 bytes, and session ids are decoded only over the letters that validation admits.
- Nonces.DeviceNonceStore.ConsumeMessage: parsing of the timestamp text is a parameter.
- HeartbeatRunner.IdleRunner.RunOnce: exceptions raised while reading the task file are not modelled.
