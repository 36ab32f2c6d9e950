/** The operations of the chat store as functions on store values: what a locked section turns one saved file into. */
module ChatStore {
  import opened Prelude
  import opened Chat

  // ---------------------------------------------------------------- the claim queue

  predicate IsPending(m: Message) {
    m.role == User && m.status == Queued
  }

  function PendingIds(ms: map<string, Message>): set<string> {
    set k | k in ms && IsPending(ms[k])
  }

  /** The sort key of the claim queue: priority class first, then sequence number. */
  predicate Ahead(a: Message, b: Message) {
    Priority(a) < Priority(b) || (Priority(a) == Priority(b) && a.sequence < b.sequence)
  }

  predicate IsFirst(ms: map<string, Message>, ids: set<string>, id: string) {
    id in ids && forall k :: k in ids && k in ms && id in ms && k != id ==> Ahead(ms[id], ms[k])
  }

  lemma {:induction false} FirstExists(ms: map<string, Message>, ids: set<string>)
    requires ValidMessages(ms) && ids <= ms.Keys && ids != {}
    ensures exists id :: IsFirst(ms, ids, id)
    decreases ids
  {
    var k :| k in ids;
    var rest := ids - {k};
    if rest == {} {
      assert ids == {k};
      assert IsFirst(ms, ids, k);
    } else {
      FirstExists(ms, rest);
      var id :| IsFirst(ms, rest, id);
      AheadTotal(ms, k, id);
      assert IsFirst(ms, ids, if Ahead(ms[k], ms[id]) then k else id);
    }
  }

  lemma AheadTotal(ms: map<string, Message>, a: string, b: string)
    requires ValidMessages(ms) && a in ms && b in ms && a != b
    ensures Ahead(ms[a], ms[b]) || Ahead(ms[b], ms[a])
  {
    var keys := MessageKeys(ms);
    assert keys[a] != keys[b];
  }

  /** A pause, told by its client id. */
  predicate IsPause(m: Message) {
    m.clientId.Some? && ("control_pause_" <= m.clientId.value || "omnidoer_pause_" <= m.clientId.value)
  }

  /** A message that continues the agent or comes from the command line, told by its client id. */
  predicate IsControl(m: Message) {
    m.clientId.Some? && ("control_continue_" <= m.clientId.value || "control_cli_" <= m.clientId.value)
  }

  /** Pauses go before everything else, control messages before the rest, and within a kind the earlier goes first. */
  predicate MayGoBefore(a: Message, b: Message) {
    && (IsPause(b) ==> IsPause(a))
    && (IsControl(b) ==> IsPause(a) || IsControl(a))
    && (IsPause(a) == IsPause(b) && IsControl(a) == IsControl(b) ==> a.sequence <= b.sequence)
  }

  /** The message is queued by the user, and no such message has to go before it. */
  predicate GoesFirst(ms: map<string, Message>, id: string) {
    && id in ms && ms[id].role == User && ms[id].status == Queued
    && forall k :: k in ms && ms[k].role == User && ms[k].status == Queued ==> MayGoBefore(ms[id], ms[k])
  }

  lemma FirstGoesFirst(ms: map<string, Message>, id: string)
    requires IsFirst(ms, PendingIds(ms), id)
    ensures GoesFirst(ms, id)
  {
    forall k | k in ms && ms[k].role == User && ms[k].status == Queued ensures MayGoBefore(ms[id], ms[k]) {
      assert k in PendingIds(ms);
    }
  }

  /** The message `next_user_message` would return: the head of the sorted pending list. */
  function FirstPending(ms: map<string, Message>): (r: Option<string>)
    requires ValidMessages(ms)
    ensures r == None <==> PendingIds(ms) == {}
    ensures r == None <==> forall k :: k in ms ==> !(ms[k].role == User && ms[k].status == Queued)
    ensures r.Some? ==> IsFirst(ms, PendingIds(ms), r.value) && GoesFirst(ms, r.value)
  {
    var ids := PendingIds(ms);
    assert forall k :: k in ids <==> k in ms && ms[k].role == User && ms[k].status == Queued;
    if ids == {} then None
    else
      FirstExists(ms, ids);
      var id :| IsFirst(ms, ids, id);
      FirstGoesFirst(ms, id);
      Some(id)
  }

  // ---------------------------------------------------------------- operations

  datatype Op =
    | Append(role: Role, text: string, status: Option<Status>, clientId: Option<string>)
    | Claim
    | AppendDelta(id: string, delta: string)
    | Complete(id: string, newText: Option<string>)
    | Cancel(id: string)
    | AppendRecord(kind: RecordType, messageId: Option<string>)
    | PruneNow
    | ArchiveAndReset

  /** What the environment supplies to one call: the clock and two fresh identifiers. */
  datatype Env = Env(now: real, messageId: string, recordId: string)

  predicate FreshFor(s: Store, e: Env) {
    e.messageId != "" && e.messageId !in s.messages && e.recordId !in s.records
  }

  /** Store one message and one status record about it, then save (which prunes). */
  function Unpruned(s: Store, m: Message, kind: RecordType, e: Env): Store {
    Store(if m.sequence < s.nextSequence then s.nextSequence else m.sequence + 1,
          s.messages[m.id := m],
          s.nextRecordSequence + 1,
          s.records[e.recordId := Record(e.recordId, s.nextRecordSequence, kind, Some(m.id), e.now)])
  }

  predicate CanPut(s: Store, m: Message, e: Env) {
    && m.id != ""
    && e.recordId !in s.records
    && (if m.id in s.messages then m.sequence == s.messages[m.id].sequence else m.sequence == s.nextSequence)
  }

  lemma UnprunedValid(s: Store, m: Message, kind: RecordType, e: Env)
    requires Valid(s) && CanPut(s, m, e)
    ensures Valid(Unpruned(s, m, kind, e))
  {
    var u := Unpruned(s, m, kind, e);
    var k0, k1 := MessageKeys(s.messages), MessageKeys(u.messages);
    forall a, b | a in k1 && b in k1 && k1[a] == k1[b] ensures a == b {
      assert a in s.messages ==> a in k0 && k0[a] == k1[a];
      assert b in s.messages ==> b in k0 && k0[b] == k1[b];
    }
    var r0, r1 := RecordKeys(s.records), RecordKeys(u.records);
    forall a, b | a in r1 && b in r1 && r1[a] == r1[b] ensures a == b {
      assert a != e.recordId ==> a in r0 && r0[a] == r1[a];
      assert b != e.recordId ==> b in r0 && r0[b] == r1[b];
    }
  }

  function Put(s: Store, m: Message, kind: RecordType, e: Env): Store
    requires Valid(s) && CanPut(s, m, e)
  {
    UnprunedValid(s, m, kind, e);
    Prune(Unpruned(s, m, kind, e), e.now)
  }

  /** Text typed by the user is stored without white space around it. */
  function Cleaned(role: Role, text: string): string {
    if role == User then Strip(text) else text
  }

  function NewMessage(s: Store, op: Op, e: Env): Message
    requires op.Append?
  {
    var status := if op.status.Some? then op.status.value else if op.role == User then Queued else Completed;
    Message(e.messageId, s.nextSequence, op.role, Cleaned(op.role, op.text), status, op.clientId, e.now, e.now, None,
            if status == Completed then Some(e.now) else None)
  }

  /** The message an operation writes back, if it gets that far; None when it raises or finds nothing. */
  function Written(s: Store, op: Op, e: Env): Option<Message>
    requires Valid(s)
  {
    match op
    case Append(role, text, _, _) =>
      var cleaned := Cleaned(role, text);
      if (role == User && cleaned == "") || |cleaned| > MAX_CHAT_TEXT_LENGTH then None
      else Some(NewMessage(s, op, e))
    case Claim =>
      var first := FirstPending(s.messages);
      if first.None? then None
      else Some(s.messages[first.value].(status := Claimed, claimedAt := Some(e.now), updatedAt := e.now))
    case AppendDelta(id, delta) =>
      if delta == "" || id !in s.messages then None
      else
        var m := s.messages[id];
        if m.role != Assistant || (m.status != Streaming && m.status != Claimed)
           || |m.text| + |delta| > MAX_CHAT_TEXT_LENGTH then None
        else Some(m.(text := m.text + delta, status := Streaming, updatedAt := e.now))
    case Complete(id, newText) =>
      if id !in s.messages || (newText.Some? && |newText.value| > MAX_CHAT_TEXT_LENGTH) then None
      else
        var m := s.messages[id];
        Some(m.(text := if newText.Some? then newText.value else m.text,
                status := Completed, updatedAt := e.now, completedAt := Some(e.now)))
    case Cancel(id) =>
      if id !in s.messages then None
      else Some(s.messages[id].(status := Cancelled, updatedAt := e.now))
    case _ => None
  }

  function RecordKind(op: Op): RecordType {
    match op
    case Append(_, _, _, _) => MessageRecord
    case AppendDelta(_, _) => Delta
    case _ => StatusRecord
  }

  lemma WrittenCanPut(s: Store, op: Op, e: Env)
    requires Valid(s) && FreshFor(s, e) && Written(s, op, e).Some?
    ensures CanPut(s, Written(s, op, e).value, e) && Written(s, op, e).value.updatedAt == e.now
  {}

  /** Adding a record about nothing in particular, or about any message. */
  function WithRecord(s: Store, kind: RecordType, messageId: Option<string>, e: Env): Store {
    s.(nextRecordSequence := s.nextRecordSequence + 1,
       records := s.records[e.recordId := Record(e.recordId, s.nextRecordSequence, kind, messageId, e.now)])
  }

  lemma WithRecordValid(s: Store, kind: RecordType, messageId: Option<string>, e: Env)
    requires Valid(s) && e.recordId !in s.records
    ensures Valid(WithRecord(s, kind, messageId, e))
  {
    var u := WithRecord(s, kind, messageId, e);
    var r0, r1 := RecordKeys(s.records), RecordKeys(u.records);
    forall a, b | a in r1 && b in r1 && r1[a] == r1[b] ensures a == b {
      assert a != e.recordId ==> a in r0 && r0[a] == r1[a];
      assert b != e.recordId ==> b in r0 && r0[b] == r1[b];
    }
  }

  function Step(s: Store, op: Op, e: Env): Store
    requires Valid(s) && FreshFor(s, e)
  {
    if op.AppendRecord? then
      WithRecordValid(s, op.kind, op.messageId, e);
      Prune(WithRecord(s, op.kind, op.messageId, e), e.now)
    else if op.PruneNow? then Prune(s, e.now)
    else if op.ArchiveAndReset? then EmptyStore
    else
      var w := Written(s, op, e);
      if w.None? then s
      else
        WrittenCanPut(s, op, e);
        Put(s, w.value, RecordKind(op), e)
  }

  // ---------------------------------------------------------------- what one step does

  /** A message just written always survives the pruning of its own save. */
  lemma WrittenSurvives(s: Store, m: Message, kind: RecordType, e: Env)
    requires Valid(s) && CanPut(s, m, e) && m.updatedAt == e.now
    ensures m.id in Put(s, m, kind, e).messages
  {
    UnprunedValid(s, m, kind, e);
    var u := Unpruned(s, m, kind, e);
    LastReferencedKept(u, e.now, e.recordId, m.id);
  }

  /** What the store holds after a write: nothing but old messages and the one written. */
  ghost predicate PutResult(s: Store, m: Message, e: Env, r: Store) {
    && Valid(r)
    && SubMap(r.messages, s.messages[m.id := m])
    && r.records.Keys <= s.records.Keys + {e.recordId}
    && m.id in r.messages
    && (forall k :: k in s.messages && k != m.id && IsActive(s.messages[k]) ==> k in r.messages)
    && r.nextSequence == (if m.id in s.messages then s.nextSequence else s.nextSequence + 1)
    && r.nextRecordSequence == s.nextRecordSequence + 1
  }

  lemma PutFacts(s: Store, m: Message, kind: RecordType, e: Env)
    requires Valid(s) && CanPut(s, m, e) && m.updatedAt == e.now
    ensures PutResult(s, m, e, Put(s, m, kind, e))
  {
    UnprunedValid(s, m, kind, e);
    var u := Unpruned(s, m, kind, e);
    PruneKeeps(u, e.now);
    WrittenSurvives(s, m, kind, e);
    PutFromPruned(s, m, kind, e, Prune(u, e.now));
  }

  lemma PutFromPruned(s: Store, m: Message, kind: RecordType, e: Env, r: Store)
    requires Valid(s) && CanPut(s, m, e) && Valid(r) && m.id in r.messages
    requires var u := Unpruned(s, m, kind, e);
             && SubMap(r.messages, u.messages) && SubMap(r.records, u.records) && r.nextSequence == u.nextSequence
             && r.nextRecordSequence == u.nextRecordSequence
             && forall k :: k in u.messages && IsActive(u.messages[k]) ==> k in r.messages
    ensures PutResult(s, m, e, r)
  {}

  /** The id an operation writes to, if it writes. */
  function Target(s: Store, op: Op, e: Env): Option<string>
    requires Valid(s)
  {
    var w := Written(s, op, e);
    if w.Some? then Some(w.value.id) else None
  }

  /** What an operation writes keeps its place in the sequence, and is never a queued old message. */
  lemma WrittenFacts(s: Store, op: Op, e: Env)
    requires Valid(s) && FreshFor(s, e) && Written(s, op, e).Some?
    ensures var m := Written(s, op, e).value;
            && (m.id in s.messages ==> m.sequence == s.messages[m.id].sequence && m.status != Queued)
            && (m.id !in s.messages ==> op.Append? && m.id == e.messageId && m.sequence == s.nextSequence)
  {}

  lemma StepIsPut(s: Store, op: Op, e: Env, m: Message)
    requires Valid(s) && FreshFor(s, e) && Written(s, op, e) == Some(m)
    ensures CanPut(s, m, e) && m.updatedAt == e.now && Step(s, op, e) == Put(s, m, RecordKind(op), e)
  {
    WrittenCanPut(s, op, e);
    StepPuts(s, op, e, m);
  }

  lemma StepPuts(s: Store, op: Op, e: Env, m: Message)
    requires Valid(s) && FreshFor(s, e) && Written(s, op, e) == Some(m) && CanPut(s, m, e)
    ensures Step(s, op, e) == Put(s, m, RecordKind(op), e)
  {
    assert !op.AppendRecord? && !op.PruneNow? && !op.ArchiveAndReset?;
  }

  /** A step either writes one message or only drops some. */
  lemma StepWrites(s: Store, op: Op, e: Env, m: Message, r: Store)
    requires Valid(s) && FreshFor(s, e) && Written(s, op, e) == Some(m) && r == Step(s, op, e)
    ensures PutResult(s, m, e, r)
  {
    StepIsPut(s, op, e, m);
    PutFacts(s, m, RecordKind(op), e);
  }

  /** What is left when nothing is written: a part of what was there, or the empty store after a reset. */
  ghost predicate DropResult(s: Store, op: Op, e: Env, r: Store) {
    && Valid(r)
    && SubMap(r.messages, s.messages)
    && r.records.Keys <= s.records.Keys + {e.recordId}
    && (!op.ArchiveAndReset? ==> r.nextSequence == s.nextSequence)
  }

  lemma StepDrops(s: Store, op: Op, e: Env, r: Store)
    requires Valid(s) && FreshFor(s, e) && Written(s, op, e) == None && r == Step(s, op, e)
    ensures DropResult(s, op, e, r)
  {
    if op.AppendRecord? {
      WithRecordValid(s, op.kind, op.messageId, e);
      PruneKeeps(WithRecord(s, op.kind, op.messageId, e), e.now);
    } else if op.PruneNow? {
      PruneKeeps(s, e.now);
    }
  }

  lemma StepValid(s: Store, op: Op, e: Env)
    requires Valid(s) && FreshFor(s, e)
    ensures Valid(Step(s, op, e))
    ensures Step(s, op, e).messages.Keys <= s.messages.Keys + {e.messageId}
    ensures Step(s, op, e).records.Keys <= s.records.Keys + {e.recordId}
  {
    var w := Written(s, op, e);
    if w.Some? {
      WrittenFacts(s, op, e);
      StepWrites(s, op, e, w.value, Step(s, op, e));
    } else {
      StepDrops(s, op, e, Step(s, op, e));
    }
  }

  /**
   Every message in the store after a step is either untouched or the one the step wrote,
   and no step makes an existing message queued again.
   */
  lemma StepOrigin(s: Store, op: Op, e: Env, r: Store, k: string)
    requires Valid(s) && FreshFor(s, e) && r == Step(s, op, e) && k in r.messages
    ensures Target(s, op, e) != Some(k) ==> k in s.messages && r.messages[k] == s.messages[k]
    ensures Target(s, op, e) == Some(k) ==> r.messages[k] == Written(s, op, e).value
    ensures k in s.messages ==> r.messages[k].sequence == s.messages[k].sequence
    ensures k in s.messages && IsPending(r.messages[k]) ==> r.messages[k] == s.messages[k]
    ensures k !in s.messages ==> op.Append? && k == e.messageId && r.messages[k].sequence == s.nextSequence
  {
    var w := Written(s, op, e);
    if w.Some? {
      WrittenFacts(s, op, e);
      StepWrites(s, op, e, w.value, r);
    } else {
      StepDrops(s, op, e, r);
    }
  }

  /** A record added on its own is stored as given, under the next number. */
  lemma AddedRecord(s: Store, kind: RecordType, messageId: Option<string>, e: Env)
    requires Valid(s) && FreshFor(s, e)
    ensures var records := Step(s, AppendRecord(kind, messageId), e).records;
            && e.recordId in records && records[e.recordId] == Record(e.recordId, s.nextRecordSequence, kind, messageId, e.now)
            && (forall r :: r in records && r != e.recordId ==> r in s.records && records[r] == s.records[r])
            && Step(s, AppendRecord(kind, messageId), e).nextRecordSequence == s.nextRecordSequence + 1
  {
    WithRecordValid(s, kind, messageId, e);
    var u := WithRecord(s, kind, messageId, e);
    LastRecordKept(u.records, ActiveIds(u.messages), e.now - CHAT_RETENTION_SECONDS, e.recordId);
    PruneKeeps(u, e.now);
  }

  lemma QueuedPresent(s: Store, op: Op, e: Env, k: string)
    requires Valid(s) && FreshFor(s, e)
    requires k in s.messages && s.messages[k].status == Queued && !op.ArchiveAndReset?
    ensures k in Step(s, op, e).messages
  {
    if op.AppendRecord? {
      WithRecordValid(s, op.kind, op.messageId, e);
      PruneKeeps(WithRecord(s, op.kind, op.messageId, e), e.now);
    } else if op.PruneNow? {
      PruneKeeps(s, e.now);
    } else if Written(s, op, e).Some? {
      WrittenCanPut(s, op, e);
      PutFacts(s, Written(s, op, e).value, RecordKind(op), e);
    }
  }

  /** A queued message stays, unchanged, through every step except a reset or a write addressed to it. */
  lemma QueuedStays(s: Store, op: Op, e: Env, k: string)
    requires Valid(s) && FreshFor(s, e)
    requires k in s.messages && s.messages[k].status == Queued && !op.ArchiveAndReset?
    ensures k in Step(s, op, e).messages
    ensures Target(s, op, e) != Some(k) ==> Step(s, op, e).messages[k] == s.messages[k]
    ensures Target(s, op, e) == Some(k) ==> Step(s, op, e).messages[k].status != Queued
  {
    QueuedPresent(s, op, e, k);
    StepOrigin(s, op, e, Step(s, op, e), k);
    if Target(s, op, e) == Some(k) {
      WrittenFacts(s, op, e);
    }
  }
}
