/** The chat store as the program holds it: one object whose methods rewrite its fields. */
module ChatSession {
  import opened Prelude
  import opened Chat
  import opened ChatStore

  class Session {
    var nextSequence: int
    var messages: map<string, Message>
    var nextRecordSequence: int
    var records: map<string, Record>

    function State(): Store
      reads this
    {
      Store(nextSequence, messages, nextRecordSequence, records)
    }

    ghost predicate Ok()
      reads this
    {
      Valid(State())
    }

    constructor ()
      ensures State() == EmptyStore && Ok()
    {
      nextSequence, messages, nextRecordSequence, records := 1, map[], 1, map[];
    }

    /** Saving prunes: the age cutoff, then the record cap, then the message cap. */
    method Save(now: real)
      requires Ok()
      modifies this
      ensures State() == Prune(old(State()), now) && Ok()
    {
      PruneKeeps(State(), now);
      var cutoff := now - CHAT_RETENTION_SECONDS;
      var active := ActiveIds(messages);
      var aged := AgedMessages(messages, cutoff);
      AgedMessagesValid(messages, cutoff);
      records := PruneRecords(records, active, cutoff);
      var retained := RetainedIds(aged, active, ReferencedIds(records));
      messages := Restrict(aged, retained);
    }

    /** The tail common to every writing operation: store the message, log a record about it, save. */
    method WriteBack(m: Message, kind: RecordType, e: Env)
      requires Ok() && CanPut(State(), m, e)
      modifies this
      ensures State() == Put(old(State()), m, kind, e) && Ok()
    {
      UnprunedValid(State(), m, kind, e);
      if m.sequence >= nextSequence {
        nextSequence := m.sequence + 1;
      }
      messages := messages[m.id := m];
      records := records[e.recordId := Record(e.recordId, nextRecordSequence, kind, Some(m.id), e.now)];
      nextRecordSequence := nextRecordSequence + 1;
      assert State() == Unpruned(old(State()), m, kind, e);
      Save(e.now);
    }

    method AppendMessage(role: Role, text: string, status: Option<Status>, clientId: Option<string>, e: Env)
      returns (r: Option<Message>)
      requires Ok() && FreshFor(State(), e)
      modifies this
      ensures State() == Step(old(State()), Append(role, text, status, clientId), e) && Ok()
      ensures r == Written(old(State()), Append(role, text, status, clientId), e)
    {
      var cleaned := if role == User then Strip(text) else text;
      if (role == User && cleaned == "") || |cleaned| > MAX_CHAT_TEXT_LENGTH {
        return None;
      }
      var resolved := if status.Some? then status.value else if role == User then Queued else Completed;
      var m := Message(e.messageId, nextSequence, role, cleaned, resolved, clientId, e.now, e.now, None,
                       if resolved == Completed then Some(e.now) else None);
      StepIsPut(State(), Append(role, text, status, clientId), e, m);
      WriteBack(m, MessageRecord, e);
      r := Some(m);
    }

    /** Returns the head of the queue; with `claim`, also marks it claimed and saves. */
    method NextUserMessage(claim: bool, e: Env) returns (r: Option<Message>)
      requires Ok() && FreshFor(State(), e)
      modifies this
      ensures !claim ==> State() == old(State())
      ensures claim ==> State() == Step(old(State()), Claim, e)
      ensures Ok()
      ensures r.None? <==> forall k :: k in old(messages) ==> !IsPending(old(messages)[k])
      ensures claim ==> r == Written(old(State()), Claim, e)
      ensures r.Some? ==> GoesFirst(old(messages), r.value.id)
      ensures r.Some? && !claim ==> r.value == old(messages)[r.value.id]
      ensures r.Some? && claim ==>
                && r.value == old(messages)[r.value.id].(status := Claimed, claimedAt := Some(e.now), updatedAt := e.now)
                && r.value.id in messages && messages[r.value.id] == r.value
    {
      var first := FirstPending(messages);
      if first.None? {
        return None;
      }
      var m := messages[first.value];
      if claim {
        m := m.(status := Claimed, claimedAt := Some(e.now), updatedAt := e.now);
        StepIsPut(State(), Claim, e, m);
        StepWrites(State(), Claim, e, m, Step(State(), Claim, e));
        WriteBack(m, StatusRecord, e);
      }
      r := Some(m);
    }

    method CompleteMessage(id: string, newText: Option<string>, e: Env) returns (r: Option<Message>)
      requires Ok() && FreshFor(State(), e)
      modifies this
      ensures State() == Step(old(State()), Complete(id, newText), e) && Ok()
      ensures r == Written(old(State()), Complete(id, newText), e)
    {
      ghost var written := Written(State(), Complete(id, newText), e);
      if id !in messages || (newText.Some? && |newText.value| > MAX_CHAT_TEXT_LENGTH) {
        assert written == None;
        return None;
      }
      var m := messages[id];
      m := m.(text := if newText.Some? then newText.value else m.text,
              status := Completed, updatedAt := e.now, completedAt := Some(e.now));
      assert written == Some(m);
      StepIsPut(State(), Complete(id, newText), e, m);
      WriteBack(m, StatusRecord, e);
      r := Some(m);
    }

    method CancelMessage(id: string, e: Env) returns (r: Option<Message>)
      requires Ok() && FreshFor(State(), e)
      modifies this
      ensures State() == Step(old(State()), Cancel(id), e) && Ok()
      ensures r == Written(old(State()), Cancel(id), e)
    {
      if id !in messages {
        return None;
      }
      var m := messages[id].(status := Cancelled, updatedAt := e.now);
      StepIsPut(State(), Cancel(id), e, m);
      WriteBack(m, StatusRecord, e);
      r := Some(m);
    }

    method AddRecord(kind: RecordType, messageId: Option<string>, e: Env)
      requires Ok() && FreshFor(State(), e)
      modifies this
      ensures State() == Step(old(State()), AppendRecord(kind, messageId), e) && Ok()
    {
      WithRecordValid(State(), kind, messageId, e);
      records := records[e.recordId := Record(e.recordId, nextRecordSequence, kind, messageId, e.now)];
      nextRecordSequence := nextRecordSequence + 1;
      assert State() == WithRecord(old(State()), kind, messageId, e);
      Save(e.now);
    }

    /** Moves everything aside and starts again from an empty store and fresh counters. */
    method Reset(e: Env) returns (archived: Store)
      requires Ok() && FreshFor(State(), e)
      modifies this
      ensures archived == old(State())
      ensures State() == Step(old(State()), ArchiveAndReset, e) && Ok()
      ensures nextSequence == 1 && messages == map[] && nextRecordSequence == 1 && records == map[]
    {
      archived := State();
      nextSequence, messages, nextRecordSequence, records := 1, map[], 1, map[];
    }
  }
}
