/**
 What the chat store holds, told by what happened to each message: every message is exactly what the calls addressed to
 it amount to, in whatever order they came, and whatever was pruned in between.
 */
module ChatHistory {
  import opened Prelude
  import opened Chat
  import opened ChatStore
  import opened ChatRuns

  /** Something that happened to a message. */
  datatype Touch =
    | Begun(role: Role, text: string, status: Status, clientId: Option<string>, at: real)
    | Picked(at: real)
    | Said(delta: string, at: real)
    | Ended(newText: Option<string>, at: real)
    | Stopped(at: real)

  datatype Touched = Touched(id: string, touch: Touch)

  /** User text goes in without the white space around it, and not if nothing is left; nothing goes in over a mebibyte. */
  predicate MaySay(role: Role, text: string) {
    if role == User then Strip(text) != "" && |Strip(text)| <= 1048576 else |text| <= 1048576
  }

  /** More text is taken for an assistant message that is being written, up to the same limit. */
  predicate MayGrow(m: Message, delta: string) {
    && delta != "" && m.role == Assistant && (m.status == Claimed || m.status == Streaming)
    && |m.text + delta| <= 1048576
  }

  /** What a call does to a message, if it does anything. */
  function TouchOf(s: Store, op: Op, e: Env): Option<Touched> {
    match op
    case Append(User, text, status, clientId) =>
      if !MaySay(User, text) then None
      else Some(Touched(e.messageId, Begun(User, Strip(text), if status.Some? then status.value else Queued, clientId, e.now)))
    case Append(role, text, status, clientId) =>
      if !MaySay(role, text) then None
      else Some(Touched(e.messageId, Begun(role, text, if status.Some? then status.value else Completed, clientId, e.now)))
    case Claim =>
      if ValidMessages(s.messages) && FirstPending(s.messages).Some?
      then Some(Touched(FirstPending(s.messages).value, Picked(e.now))) else None
    case AppendDelta(id, delta) =>
      if id in s.messages && MayGrow(s.messages[id], delta) then Some(Touched(id, Said(delta, e.now))) else None
    case Complete(id, newText) =>
      if id in s.messages && (newText.Some? ==> |newText.value| <= 1048576) then Some(Touched(id, Ended(newText, e.now))) else None
    case Cancel(id) => if id in s.messages then Some(Touched(id, Stopped(e.now))) else None
    case _ => None
  }

  // ---------------------------------------------------------------- what a history amounts to

  /** The text last given whole, and whatever was added since. */
  function TextOf(h: seq<Touch>): string {
    if h == [] then ""
    else
      match h[|h| - 1]
      case Begun(_, text, _, _, _) => text
      case Ended(Some(text), _) => text
      case Said(delta, _) => TextOf(h[..|h| - 1]) + delta
      case _ => TextOf(h[..|h| - 1])
  }

  /** The last thing that happened decides the status. */
  function StatusOf(t: Touch): Status {
    match t
    case Begun(_, _, status, _, _) => status
    case Picked(_) => Claimed
    case Said(_, _) => Streaming
    case Ended(_, _) => Completed
    case Stopped(_) => Cancelled
  }

  function PickedAt(h: seq<Touch>): Option<real> {
    if h == [] then None
    else if h[|h| - 1].Picked? then Some(h[|h| - 1].at)
    else PickedAt(h[..|h| - 1])
  }

  function EndedAt(h: seq<Touch>): Option<real> {
    if h == [] then None
    else if h[|h| - 1].Ended? || (h[|h| - 1].Begun? && h[|h| - 1].status == Completed) then Some(h[|h| - 1].at)
    else EndedAt(h[..|h| - 1])
  }

  /** The message is what its history tells. */
  ghost predicate Tells(h: seq<Touch>, m: Message) {
    && h != [] && h[0].Begun?
    && m.role == h[0].role && m.clientId == h[0].clientId && m.createdAt == h[0].at
    && m.text == TextOf(h) && m.status == StatusOf(h[|h| - 1]) && m.updatedAt == h[|h| - 1].at
    && m.claimedAt == PickedAt(h) && m.completedAt == EndedAt(h)
  }

  /** All that was added, in order. */
  function Additions(h: seq<Touch>): string {
    if h == [] then "" else Additions(h[..|h| - 1]) + if h[|h| - 1].Said? then h[|h| - 1].delta else ""
  }

  /** A message that was never given a new text holds its first text and then every addition, in order. */
  lemma {:induction false} StreamedText(h: seq<Touch>)
    requires h != [] && h[0].Begun? && forall i :: 0 < i < |h| ==> !h[i].Begun? && !(h[i].Ended? && h[i].newText.Some?)
    ensures TextOf(h) == h[0].text + Additions(h)
  {
    var front, last := h[..|h| - 1], h[|h| - 1];
    if |h| == 1 {
      assert front == [] && Additions(front) == "" && Additions(h) == "";
    } else {
      StreamedText(front);
      assert last == h[|h| - 1] && !last.Begun?;
      AdditionsStep(h[0].text, Additions(front), if last.Said? then last.delta else "");
    }
  }

  lemma AdditionsStep(text: string, added: string, delta: string)
    ensures text + added + delta == text + (added + delta)
  {}

  // ---------------------------------------------------------------- one call

  lemma TouchIsWrite(s: Store, op: Op, e: Env)
    requires Valid(s) && FreshFor(s, e)
    ensures TouchOf(s, op, e).Some? <==> Written(s, op, e).Some?
    ensures TouchOf(s, op, e).Some? ==> TouchOf(s, op, e).value.id == Written(s, op, e).value.id
  {}

  lemma Snoc(h: seq<Touch>, t: Touch)
    ensures (h + [t])[..|h|] == h && (h + [t])[|h|] == t
  {}

  lemma BegunTells(s: Store, op: Op, e: Env, m: Message)
    requires Valid(s) && FreshFor(s, e) && op.Append? && Written(s, op, e) == Some(m)
    ensures TouchOf(s, op, e).Some? && Tells([TouchOf(s, op, e).value.touch], m)
  {
    TouchIsWrite(s, op, e);
    var h := [TouchOf(s, op, e).value.touch];
    assert h[..0] == [];
  }

  lemma WriteTells(s: Store, op: Op, e: Env, h: seq<Touch>, m: Message)
    requires Valid(s) && FreshFor(s, e) && !op.Append? && Written(s, op, e) == Some(m)
    requires m.id in s.messages && Tells(h, s.messages[m.id])
    ensures TouchOf(s, op, e).Some? && Tells(h + [TouchOf(s, op, e).value.touch], m)
  {
    TouchIsWrite(s, op, e);
    Snoc(h, TouchOf(s, op, e).value.touch);
  }

  // ---------------------------------------------------------------- runs

  /** What has happened to a message so far. */
  function HistoryOf(ws: seq<World>, cs: seq<Call>, n: nat, k: string): seq<Touch>
    requires n <= |cs| && n <= |ws|
  {
    if n == 0 then []
    else HistoryOf(ws, cs, n - 1, k) + TouchesOf(ws[n - 1].store, cs[n - 1], k)
  }

  function TouchesOf(s: Store, c: Call, k: string): seq<Touch> {
    var t := TouchOf(s, c.op, c.env);
    if t.Some? && t.value.id == k then [t.value.touch] else []
  }

  ghost predicate Goes(w: World, c: Call, v: World) {
    Inv(w) && Fresh(w, c) && v == Advance(w, c)
  }

  /** The message and its history agree; one that has not been drawn yet has no history. */
  ghost predicate Agree(w: World, k: string, h: seq<Touch>) {
    && (k in w.store.messages ==> Tells(h, w.store.messages[k]))
    && (k !in w.seenMessages ==> h == [])
  }

  lemma StoredStep(w: World, c: Call, v: World, k: string, h: seq<Touch>)
    requires Goes(w, c, v) && Agree(w, k, h) && k in v.store.messages
    ensures Tells(h + TouchesOf(w.store, c, k), v.store.messages[k])
  {
    var s, op, e := w.store, c.op, c.env;
    StepOrigin(s, op, e, v.store, k);
    TouchIsWrite(s, op, e);
    if Target(s, op, e) == Some(k) {
      var m := Written(s, op, e).value;
      AppendIsNew(s, op, e);
      if op.Append? {
        BegunTells(s, op, e, m);
        assert [] + [TouchOf(s, op, e).value.touch] == [TouchOf(s, op, e).value.touch];
      } else {
        WriteTells(s, op, e, h, m);
      }
    } else {
      assert h + [] == h;
    }
  }

  lemma UnseenStep(w: World, c: Call, v: World, k: string)
    requires Goes(w, c, v) && k !in v.seenMessages
    ensures k !in w.seenMessages && TouchesOf(w.store, c, k) == []
  {
    TouchIsWrite(w.store, c.op, c.env);
    if Written(w.store, c.op, c.env).Some? {
      WrittenFacts(w.store, c.op, c.env);
    }
  }

  lemma AgreeStep(w: World, c: Call, v: World, k: string, h: seq<Touch>)
    requires Goes(w, c, v) && Agree(w, k, h)
    ensures Agree(v, k, h + TouchesOf(w.store, c, k))
  {
    if k in v.store.messages {
      StoredStep(w, c, v, k, h);
    }
    if k !in v.seenMessages {
      UnseenStep(w, c, v, k);
    }
  }

  /** From one world to the next, histories grow and go on telling the messages. */
  ghost predicate Carries(w: World, c: Call, v: World) {
    forall k, h {:trigger Agree(w, k, h)} :: Agree(w, k, h) ==> Agree(v, k, h + TouchesOf(w.store, c, k))
  }

  ghost predicate AllCarry(ws: seq<World>, cs: seq<Call>) {
    |ws| == |cs| + 1 && forall n {:trigger cs[n]} :: 0 <= n < |cs| ==> Carries(ws[n], cs[n], ws[n + 1])
  }

  lemma GoesCarries(w: World, c: Call, v: World)
    requires Goes(w, c, v)
    ensures Carries(w, c, v)
  {
    forall k, h: seq<Touch> | Agree(w, k, h) ensures Agree(v, k, h + TouchesOf(w.store, c, k)) {
      AgreeStep(w, c, v, k, h);
    }
  }

  lemma CarriesAt(ws: seq<World>, cs: seq<Call>, n: nat)
    requires IsRun(ws, cs) && n < |cs|
    ensures Carries(ws[n], cs[n], ws[n + 1])
  {
    InvAlong(ws, cs, n);
    GoesCarries(ws[n], cs[n], ws[n + 1]);
  }

  lemma RunCarries(ws: seq<World>, cs: seq<Call>)
    requires IsRun(ws, cs)
    ensures AllCarry(ws, cs)
  {
    forall n | 0 <= n < |cs| ensures Carries(ws[n], cs[n], ws[n + 1]) {
      CarriesAt(ws, cs, n);
    }
  }

  lemma {:induction false} AgreeAlong(ws: seq<World>, cs: seq<Call>, n: nat, k: string)
    requires AllCarry(ws, cs) && n <= |cs| && Agree(ws[0], k, [])
    ensures Agree(ws[n], k, HistoryOf(ws, cs, n, k))
  {
    if n > 0 {
      AgreeAlong(ws, cs, n - 1, k);
      assert Carries(ws[n - 1], cs[n - 1], ws[n]);
    }
  }

  /**
   In every state of every run, every stored message is exactly what happened to it: its first role and client id, the
   text last given whole with every addition since, the status the last touch gives it, and the times of its touches.
   */
  lemma StoredIsHistory(ws: seq<World>, cs: seq<Call>, n: nat, k: string)
    requires IsRun(ws, cs) && n <= |cs| && k in ws[n].store.messages
    ensures Tells(HistoryOf(ws, cs, n, k), ws[n].store.messages[k])
  {
    RunCarries(ws, cs);
    AgreeAlong(ws, cs, n, k);
  }

  /** And what has just happened to a message is never pruned away by the same call, nor is the record about it. */
  lemma TouchedIsStored(ws: seq<World>, cs: seq<Call>, n: nat)
    requires IsRun(ws, cs) && n < |cs| && TouchOf(ws[n].store, cs[n].op, cs[n].env).Some?
    ensures var id, e := TouchOf(ws[n].store, cs[n].op, cs[n].env).value.id, cs[n].env;
            && id in ws[n + 1].store.messages && e.recordId in ws[n + 1].store.records
            && ws[n + 1].store.records[e.recordId].messageId == Some(id) && ws[n + 1].store.records[e.recordId].createdAt == e.now
            && ws[n + 1].store.records[e.recordId].kind
                 == (if cs[n].op.Append? then MessageRecord else if cs[n].op.AppendDelta? then Delta else StatusRecord)
  {
    InvAlong(ws, cs, n);
    var s, op, e := ws[n].store, cs[n].op, cs[n].env;
    TouchIsWrite(s, op, e);
    var m := Written(s, op, e).value;
    StepWrites(s, op, e, m, Step(s, op, e));
    StepIsPut(s, op, e, m);
    RecordStored(s, m, RecordKind(op), e);
  }

  lemma RecordStored(s: Store, m: Message, kind: RecordType, e: Env)
    requires Valid(s) && CanPut(s, m, e)
    ensures e.recordId in Put(s, m, kind, e).records
    ensures Put(s, m, kind, e).records[e.recordId] == Record(e.recordId, s.nextRecordSequence, kind, Some(m.id), e.now)
  {
    UnprunedValid(s, m, kind, e);
    var u := Unpruned(s, m, kind, e);
    LastRecordKept(u.records, ActiveIds(u.messages), e.now - CHAT_RETENTION_SECONDS, e.recordId);
    PruneKeeps(u, e.now);
  }

  /** A record added on its own is stored as given, under a number above every other. */
  lemma AddedIsStored(ws: seq<World>, cs: seq<Call>, n: nat)
    requires IsRun(ws, cs) && n < |cs| && cs[n].op.AppendRecord?
    ensures var op, e, records := cs[n].op, cs[n].env, ws[n + 1].store.records;
            && e.recordId in records && records[e.recordId].kind == op.kind && records[e.recordId].messageId == op.messageId
            && records[e.recordId].createdAt == e.now
            && forall r :: r in records && r != e.recordId ==> records[r].sequence < records[e.recordId].sequence
  {
    InvAlong(ws, cs, n);
    AddedRecord(ws[n].store, cs[n].op.kind, cs[n].op.messageId, cs[n].env);
  }
}
