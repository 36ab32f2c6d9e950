/** When a heartbeat run skips, for which reason, what it says and what it leaves in the settings, case by case. */
module HeartbeatOutcomes {
  import opened Prelude
  import opened HeartbeatRunner
  import H = Heartbeat
  import C = Chat
  import S = ChatStore

  // ---------------------------------------------------------------- an idle chat

  /** When the message was last written, or zero. */
  function LastTouch(m: C.Message): real {
    if m.updatedAt != 0.0 then m.updatedAt else m.createdAt
  }

  /** Somebody is at work on it: a user's message for as long as it is open, any other for half an hour. */
  predicate WorkedOn(m: C.Message, now: real) {
    && (m.status.Queued? || m.status.Claimed? || m.status.Streaming?)
    && (m.role == C.User || LastTouch(m) == 0.0 || now - LastTouch(m) < 1800.0)
  }

  predicate Within(at: real, span: real, now: real) {
    at > 0.0 && now - at < span
  }

  /** One of the thousand newest messages. */
  ghost predicate SeenMessage(chat: C.Store, k: string) {
    k in chat.messages && |set x | x in chat.messages && chat.messages[x].sequence > chat.messages[k].sequence| < 1000
  }

  /** One of the 140 newest records. */
  ghost predicate SeenRecord(chat: C.Store, r: string) {
    r in chat.records && |set x | x in chat.records && chat.records[x].sequence > chat.records[r].sequence| < 140
  }

  ghost predicate NobodyWorks(chat: C.Store, now: real) {
    forall k :: SeenMessage(chat, k) ==> !WorkedOn(chat.messages[k], now)
  }

  ghost predicate NothingWithin(chat: C.Store, span: real, now: real) {
    && (forall k :: SeenMessage(chat, k) ==> !Within(LastTouch(chat.messages[k]), span, now))
    && (forall r :: SeenRecord(chat, r) ==> !Within(chat.records[r].createdAt, span, now))
  }

  lemma BusyMeans(m: C.Message, now: real)
    ensures IsBusy(m, now) <==> WorkedOn(m, now)
    ensures Stamp(m, 0.0) == LastTouch(m)
  {}

  lemma SeenMessageExactly(chat: C.Store, k: string)
    requires C.Valid(chat)
    ensures k in Listed(chat) <==> SeenMessage(chat, k)
  {
    var keys := C.MessageKeys(chat.messages);
    C.SortedIdsSorts(keys);
    assert k in Listed(chat) <==> k in C.Newest(keys, LIST_LIMIT);
    if k in keys {
      C.NewestExactly(keys, LIST_LIMIT, k);
      assert C.Above(keys, k) == set x | x in chat.messages && chat.messages[x].sequence > chat.messages[k].sequence;
    }
  }

  lemma SeenRecordExactly(chat: C.Store, r: string)
    requires C.Valid(chat)
    ensures r in ListedRecords(chat) <==> SeenRecord(chat, r)
  {
    var keys := C.RecordKeys(chat.records);
    C.SortedIdsSorts(keys);
    assert r in ListedRecords(chat) <==> r in C.Newest(keys, C.MAX_CHAT_RECORDS);
    if r in keys {
      C.NewestExactly(keys, C.MAX_CHAT_RECORDS, r);
      assert C.Above(keys, r) == set x | x in chat.records && chat.records[x].sequence > chat.records[r].sequence;
    }
  }

  lemma NothingBusyExactly(chat: C.Store, now: real)
    requires C.Valid(chat)
    ensures NothingBusy(chat, now) <==> NobodyWorks(chat, now)
  {
    forall k ensures k in Listed(chat) <==> SeenMessage(chat, k) {
      SeenMessageExactly(chat, k);
    }
    forall k | k in chat.messages ensures IsBusy(chat.messages[k], now) <==> WorkedOn(chat.messages[k], now) {
      BusyMeans(chat.messages[k], now);
    }
  }

  lemma RecentExactly(chat: C.Store, span: real, now: real)
    requires C.Valid(chat)
    ensures !RecentMessage(chat, now - span) && !RecentRecord(chat, now - span) <==> NothingWithin(chat, span, now)
  {
    forall k ensures k in Listed(chat) <==> SeenMessage(chat, k) {
      SeenMessageExactly(chat, k);
    }
    forall r ensures r in ListedRecords(chat) <==> SeenRecord(chat, r) {
      SeenRecordExactly(chat, r);
    }
    forall k | k in chat.messages ensures Stamp(chat.messages[k], 0.0) == LastTouch(chat.messages[k]) {
      BusyMeans(chat.messages[k], now);
    }
  }

  /** The chat is idle if and only if nobody is at work on a listed message and nothing listed is newer than the idle time. */
  lemma IdleExactly(chat: C.Store, minIdle: real, now: real)
    requires C.Valid(chat)
    ensures NotIdle(chat, minIdle, now).None? <==> NobodyWorks(chat, now) && NothingWithin(chat, minIdle, now)
    ensures NotIdle(chat, minIdle, now) == Some(RecentActivity) <==> NobodyWorks(chat, now) && !NothingWithin(chat, minIdle, now)
    ensures NotIdle(chat, minIdle, now).Some? ==>
              NotIdle(chat, minIdle, now).value.RecentActivity? || NotIdle(chat, minIdle, now).value.ActiveMessage?
  {
    QuietExactly(chat, minIdle, now);
    NothingBusyExactly(chat, now);
    RecentExactly(chat, minIdle, now);
  }

  // ---------------------------------------------------------------- the gates

  /** The task to come may interrupt. */
  ghost predicate Interrupts(q: H.Queue, now: real)
    requires H.Valid(q)
  {
    H.Pick(q, now).Some? && H.Pick(q, now).value in q.tasks && q.tasks[H.Pick(q, now).value].interruptActive
  }

  ghost predicate TooSoon(c: Config, now: real) {
    c.lastTriggered.Some? && now - c.lastTriggered.value < c.interval
  }

  /** The run has to look at the chat: it is unforced, enabled, not too soon, and the task to come may not interrupt. */
  ghost predicate LooksAtChat(r: Runner, i: Input)
    requires Valid(r)
  {
    !i.force && r.config.enabled && !TooSoon(r.config, i.now) && !Interrupts(r.queue, i.now)
  }

  lemma PeekInterrupts(q: H.Queue, i: Input)
    requires H.Valid(q)
    ensures NeedsQuiet(Peek(q, i.now), i) <==> !i.force && !Interrupts(q, i.now)
  {
    H.ChooseKnown(q, i.now);
  }

  /** Which gate stops a run, if any: a forced run is never stopped. */
  lemma GateExactly(r: Runner, i: Input)
    requires Valid(r)
    ensures var gate := Gate(r, i);
            && (gate == Some(Disabled) <==> !i.force && !r.config.enabled)
            && (gate == Some(IntervalNotElapsed) <==> !i.force && r.config.enabled && TooSoon(r.config, i.now))
            && (gate == Some(RecentActivity) <==>
                  LooksAtChat(r, i) && NobodyWorks(r.chat, i.now) && !NothingWithin(r.chat, r.config.minIdle, i.now))
            && (gate.Some? && gate.value.ActiveMessage? <==> LooksAtChat(r, i) && !NobodyWorks(r.chat, i.now))
            && (gate.Some? ==>
                  gate.value.Disabled? || gate.value.IntervalNotElapsed? || gate.value.RecentActivity? || gate.value.ActiveMessage?)
  {
    PeekInterrupts(r.queue, i);
    IdleExactly(r.chat, r.config.minIdle, i.now);
  }

  // ---------------------------------------------------------------- outcomes

  /** The chat takes the text: something is left without the white space around it, and no more than a mebibyte. */
  predicate Acceptable(text: string) {
    !IsAllSpace(text) && |Strip(text)| <= 1048576
  }

  lemma FitsExactly(text: string)
    ensures Fits(text) <==> Acceptable(text)
  {
    AllSpaceExactly(text);
  }

  /** What the message of this run says. */
  function PromptOf(r: Runner, i: Input, format: Format): string
    requires Valid(r)
  {
    PromptFor(r.config, Taking(r.queue, i.now), i, format)
  }

  lemma InstructionsExactly(q: H.Queue, i: Input)
    requires H.Valid(q)
    ensures var task := Taking(q, i.now);
            && (Obstacle(Peek(q, i.now).Some?, task, i) == Some(FileNotFound) <==> H.Pick(q, i.now).None? && i.file.None?)
            && (Obstacle(Peek(q, i.now).Some?, task, i) == Some(FileEmpty) <==>
                  H.Pick(q, i.now).None? && i.file.Some? && IsAllSpace(i.file.value))
            && (Obstacle(Peek(q, i.now).Some?, task, i).None? <==> H.Pick(q, i.now).Some? || (i.file.Some? && !IsAllSpace(i.file.value)))
  {
    TakingFacts(q, i);
    if i.file.Some? {
      AllSpaceExactly(i.file.value);
    }
  }

  lemma AfterGatesExactly(r: Runner, i: Input, format: Format)
    requires Valid(r) && FreshInput(r.chat, i)
    ensures var out := AfterGates(r, r.config, Peek(r.queue, i.now).Some?, i, format).1;
            var said := H.Pick(r.queue, i.now).Some? || (i.file.Some? && !IsAllSpace(i.file.value));
            && (out == Skipped(FileNotFound) <==> H.Pick(r.queue, i.now).None? && i.file.None?)
            && (out == Skipped(FileEmpty) <==> H.Pick(r.queue, i.now).None? && i.file.Some? && IsAllSpace(i.file.value))
            && (out == Raised <==> said && !Acceptable(PromptOf(r, i, format)))
            && (out == Dispatched(i.first.messageId, H.Pick(r.queue, i.now)) <==> said && Acceptable(PromptOf(r, i, format)))
  {
    InstructionsExactly(r.queue, i);
    TakingFacts(r.queue, i);
    FitsExactly(PromptOf(r, i, format));
  }

  /**
   What becomes of an uninterrupted run: it is stopped by a gate, or finds neither task nor task file, or only a blank
   one, or its prompt is refused, or it dispatches the picked task, or the file, under the identifier drawn.
   */
  lemma OutcomeExactly(r: Runner, i: Input, format: Format)
    requires Valid(r) && FreshInput(r.chat, i)
    ensures var gate, out := Gate(r, i), OneRun(r, i, format).1;
            var said := H.Pick(r.queue, i.now).Some? || (i.file.Some? && !IsAllSpace(i.file.value));
            && (gate.Some? ==> out == Skipped(gate.value))
            && (gate.None? ==>
                  && (out == Skipped(FileNotFound) <==> H.Pick(r.queue, i.now).None? && i.file.None?)
                  && (out == Skipped(FileEmpty) <==> H.Pick(r.queue, i.now).None? && i.file.Some? && IsAllSpace(i.file.value))
                  && (out == Raised <==> said && !Acceptable(PromptOf(r, i, format)))
                  && (out == Dispatched(i.first.messageId, H.Pick(r.queue, i.now)) <==> said && Acceptable(PromptOf(r, i, format))))
  {
    AfterGatesExactly(r, i, format);
  }

  // ---------------------------------------------------------------- the settings after a run

  /** The same reason was noted less than five minutes ago. */
  predicate JustNoted(c: Config, reason: Reason, now: real) {
    c.lastSkipReason == Some(reason) && c.lastSkippedAt.Some? && now - c.lastSkippedAt.value < 300.0
  }

  /** What a run leaves in the settings: a note of a skip unless one was just made, the dispatch, or nothing. */
  lemma SettingsExactly(r: Runner, i: Input, format: Format)
    requires Valid(r) && FreshInput(r.chat, i)
    ensures var (v, out) := OneRun(r, i, format);
            && (out.Skipped? && JustNoted(r.config, out.reason, i.now) ==> v.config == r.config)
            && (out.Skipped? && !JustNoted(r.config, out.reason, i.now) ==>
                  v.config == r.config.(lastSkippedAt := v.config.lastSkippedAt, lastSkipReason := v.config.lastSkipReason)
                  && v.config.lastSkippedAt == Some(i.now) && v.config.lastSkipReason == Some(out.reason))
            && (out.Dispatched? ==>
                  && v.config.lastTriggered == Some(i.now) && v.config.lastMessage == Some(out.messageId)
                  && v.config.lastTask == out.task && v.config.lastSkipReason.None?
                  && v.config.lastSkippedAt == r.config.lastSkippedAt && v.config.enabled == r.config.enabled
                  && v.config.interval == r.config.interval && v.config.minIdle == r.config.minIdle
                  && v.config.heartbeatFile == r.config.heartbeatFile)
            && (out.Raised? ==> v.config == r.config)
  {}

  /** The message named in the settings is queued in the chat and holds the prompt. */
  lemma DispatchedIsQueued(r: Runner, i: Input, format: Format)
    requires Valid(r) && FreshInput(r.chat, i) && OneRun(r, i, format).1.Dispatched?
    ensures var v := OneRun(r, i, format).0;
            v.config.lastMessage.Some? && HoldsPrompt(v.chat, v.config.lastMessage.value, PromptOf(r, i, format))
  {
    var text := PromptOf(r, i, format);
    MessageQueued(r.chat, text, i, QueueMessage(r.chat, text, i));
  }

  /** It carries the client id of the run, and a status record about it is on file. */
  lemma DispatchedIsRecorded(r: Runner, i: Input, format: Format)
    requires Valid(r) && FreshInput(r.chat, i) && OneRun(r, i, format).1.Dispatched?
    ensures var chat, id := OneRun(r, i, format).0.chat, i.first.messageId;
            && id in chat.messages && chat.messages[id].clientId == Some(i.clientId)
            && i.second.recordId in chat.records && chat.records[i.second.recordId].kind == C.StatusRecord
            && chat.records[i.second.recordId].messageId == Some(id) && chat.records[i.second.recordId].createdAt == i.second.now
  {
    var text := PromptOf(r, i, format);
    var chat1 := S.Step(r.chat, MessageOp(text, i), i.first);
    PromptWritten(r.chat, MessageOp(text, i), i.first, chat1);
    StillFresh(r.chat, text, i, chat1);
    S.QueuedStays(chat1, RecordOp(i), i.second, i.first.messageId);
    S.AddedRecord(chat1, C.StatusRecord, Some(i.first.messageId), i.second);
  }
}
