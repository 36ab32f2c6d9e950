/** Single use of control requests, over every sequential run of whole method calls. */
module RequestRuns {
  import opened Prelude
  import opened Requests

  /** The successes that matter: a decision, or an operation that uses the request up. */
  datatype Kind = Submitted | Agreed | Refused | Withdrawn | Completed | HandedBack | Spent

  /** A success: its kind, its time, and what was submitted, if anything was. */
  datatype Event = Event(kind: Kind, at: real, envelope: Option<string>)

  function KindOf(a: Action): Option<Kind> {
    match a
    case Submit(_) => Some(Submitted)
    case Approve => Some(Agreed)
    case Deny => Some(Refused)
    case Cancel => Some(Withdrawn)
    case CompleteChallenge => Some(Completed)
    case Release => Some(HandedBack)
    case ConsumeApproval => Some(Spent)
    case RecordFrame(_) => None
    case ValidateFrame(_) => None
  }

  /** The success a method achieves on the record it read; a cancel that finds the request settled is none. */
  function SuccessOf(got: Request, a: Action, get: real, check: real): seq<Event> {
    if !Decide(got, a, check).1.Done? || KindOf(a).None? then []
    else if a.Cancel? then
      if CancelIsMoot(got) then [] else [Event(Withdrawn, get, None)]
    else [Event(KindOf(a).value, check, if a.Submit? then Some(a.envelope) else None)]
  }

  function Success(r: Request, a: Action, c: Clock): seq<Event> {
    SuccessOf(ExpireIfNeeded(r, c.get), a, c.get, c.check)
  }

  // ---------------------------------------------------------------- one request and its history

  predicate UsesUp(e: Event) {
    e.kind != Agreed
  }

  ghost predicate UsedUp(h: seq<Event>) {
    exists i :: 0 <= i < |h| && UsesUp(h[i])
  }

  /** Nothing follows an operation that used the request up, except one completion right after a submission. */
  ghost predicate SingleUse(h: seq<Event>) {
    forall i, j :: 0 <= i < j < |h| && UsesUp(h[i]) ==>
      h[i].kind == Submitted && h[j].kind == Completed && j == i + 1 && |h| == j + 1
  }

  /** The latest decision recorded, if any. */
  function LastDecision(h: seq<Event>): Option<Decision> {
    if h == [] then None
    else
      var e := h[|h| - 1];
      if e.kind == Agreed then Some(Yes)
      else if e.kind == Refused then Some(No)
      else LastDecision(h[..|h| - 1])
  }

  /** What was submitted last, if anything was. */
  function EnvelopeOf(h: seq<Event>): Option<string> {
    if h == [] then None
    else if h[|h| - 1].kind == Submitted then h[|h| - 1].envelope
    else EnvelopeOf(h[..|h| - 1])
  }

  /** Exactly the submissions carry an envelope. */
  ghost predicate EnvelopesLogged(h: seq<Event>) {
    forall i :: 0 <= i < |h| ==> (h[i].kind == Submitted <==> h[i].envelope.Some?)
  }

  /** Where a request stands after its successes, if its time is not up. */
  function StatusAfter(h: seq<Event>, handoff: bool): Status {
    if h == [] then (if handoff then UserControl else Pending)
    else
      match h[|h| - 1].kind
      case Submitted => Fulfilled
      case Agreed => Approved
      case Refused => Denied
      case Withdrawn => Cancelled
      case Completed => ChallengeCompleted
      case HandedBack => Released
      case Spent => Consumed
  }

  /** The user has control of a handoff until it is handed back. */
  ghost predicate IsHandedBack(h: seq<Event>) {
    exists i :: 0 <= i < |h| && h[i].kind == HandedBack
  }

  predicate EndsWith(h: seq<Event>, k: Kind) {
    h != [] && h[|h| - 1].kind == k
  }

  ghost predicate Agrees(r: Request, h: seq<Event>) {
    Tallies(r, h) && Shows(r, h)
  }

  /** The record counts its successes: what used it up, and the last decision, all in time. */
  ghost predicate Tallies(r: Request, h: seq<Event>) {
    && r.oneTimeUse
    && SingleUse(h)
    && (r.used <==> UsedUp(h))
    && (r.status == Fulfilled ==> EndsWith(h, Submitted))
    && (r.status == Approved ==> EndsWith(h, Agreed))
    && (r.status == Pending || r.status == UserControl ==> !r.used)
    && (forall i :: 0 <= i < |h| ==> h[i].at <= r.expiresAt)
    && r.decision == LastDecision(h)
  }

  /** The record shows what was submitted, where the successes have led, who has control, and who ended it. */
  ghost predicate Shows(r: Request, h: seq<Event>) {
    && r.ciphertext == EnvelopeOf(h) && EnvelopesLogged(h)
    && (r.status == Expired || r.status == StatusAfter(h, IsHandoff(r)))
    && r.owner == (if IsHandoff(r) && !IsHandedBack(h) then User else Agent)
    && (r.completedByUser <==> h != [] && h[|h| - 1].kind != Withdrawn)
  }

  lemma ExpiryAgrees(r: Request, h: seq<Event>, now: real)
    requires Agrees(r, h)
    ensures Agrees(ExpireIfNeeded(r, now), h)
  {}

  lemma AppendFacts(h: seq<Event>, e: Event)
    ensures LastDecision(h + [e]) == if e.kind == Agreed then Some(Yes) else if e.kind == Refused then Some(No) else LastDecision(h)
    ensures UsedUp(h + [e]) <==> UsedUp(h) || UsesUp(e)
    ensures !UsedUp(h) ==> SingleUse(h + [e])
  {
    var g := h + [e];
    assert g[..|h|] == h;
    if UsedUp(h) {
      var i :| 0 <= i < |h| && UsesUp(h[i]);
      assert UsesUp(g[i]);
    }
    if UsesUp(e) {
      assert UsesUp(g[|h|]);
    }
  }

  lemma CompletionFollows(h: seq<Event>, e: Event)
    requires SingleUse(h) && EndsWith(h, Submitted) && e.kind == Completed
    ensures SingleUse(h + [e])
  {}

  lemma AppendShows(h: seq<Event>, e: Event)
    ensures EnvelopeOf(h + [e]) == if e.kind == Submitted then e.envelope else EnvelopeOf(h)
    ensures IsHandedBack(h + [e]) <==> IsHandedBack(h) || e.kind == HandedBack
    ensures (h + [e])[|h|] == e
  {
    var g := h + [e];
    assert g[..|h|] == h && g[|h|] == e;
    assert forall i :: 0 <= i < |h| ==> g[i] == h[i];
  }

  lemma TimesAppend(h: seq<Event>, e: Event, limit: real)
    requires (forall i :: 0 <= i < |h| ==> h[i].at <= limit) && e.at <= limit
    ensures forall i :: 0 <= i < |h + [e]| ==> (h + [e])[i].at <= limit
  {}

  /** What a success does to the parts that are tallied. */
  lemma SuccessEffect(r: Request, a: Action, now: real, written: real, e: Event, v: Request)
    requires Transition(r, a, now).Done? && KindOf(a) == Some(e.kind) && r.oneTimeUse
    requires v == Stamped(Transition(r, a, now).request, written)
    ensures v.oneTimeUse && v.expiresAt == r.expiresAt && (v.used <==> UsesUp(e))
    ensures (v.status == Fulfilled ==> e.kind == Submitted) && (v.status == Approved ==> e.kind == Agreed)
    ensures v.status != Pending && v.status != UserControl
    ensures v.decision == if e.kind == Agreed then Some(Yes) else if e.kind == Refused then Some(No) else r.decision
  {}

  lemma SuccessTallies(r: Request, h: seq<Event>, a: Action, now: real, written: real, e: Event)
    requires Tallies(r, h) && Transition(r, a, now).Done? && KindOf(a) == Some(e.kind) && e.at <= r.expiresAt
    requires !r.used || (a.CompleteChallenge? && r.status == Fulfilled)
    ensures Tallies(Stamped(Transition(r, a, now).request, written), h + [e])
  {
    var v, g := Stamped(Transition(r, a, now).request, written), h + [e];
    AppendFacts(h, e);
    if r.used {
      CompletionFollows(h, e);
    }
    TimesAppend(h, e, r.expiresAt);
    SuccessEffect(r, a, now, written, e, v);
    TalliesFrom(r, h, e, g, v);
  }

  lemma TalliesFrom(r: Request, h: seq<Event>, e: Event, g: seq<Event>, v: Request)
    requires g == h + [e] && SingleUse(g) && (UsedUp(g) <==> UsedUp(h) || UsesUp(e)) && (r.used <==> UsedUp(h))
    requires (v.used <==> UsesUp(e)) && (r.used ==> UsesUp(e)) && v.oneTimeUse
    requires (v.status == Fulfilled ==> e.kind == Submitted) && (v.status == Approved ==> e.kind == Agreed)
    requires v.status != Pending && v.status != UserControl && v.decision == LastDecision(g)
    requires forall i :: 0 <= i < |g| ==> g[i].at <= v.expiresAt
    ensures Tallies(v, g)
  {
    assert g[|h|] == e;
  }

  lemma SuccessShows(r: Request, h: seq<Event>, a: Action, now: real, written: real, e: Event)
    requires Shows(r, h) && Transition(r, a, now).Done? && KindOf(a) == Some(e.kind)
    requires e.envelope == (if a.Submit? then Some(a.envelope) else None) && (NeedsTakeover(a) ==> IsTakeover(r))
    requires a.ConsumeApproval? ==> r.status == Approved
    ensures Shows(Stamped(Transition(r, a, now).request, written), h + [e])
  {
    AppendShows(h, e);
  }

  /** What a successful call makes of the record and its history. */
  lemma SuccessAgrees(r: Request, h: seq<Event>, a: Action, now: real, written: real, e: Event)
    requires Agrees(r, h) && Transition(r, a, now).Done? && KindOf(a) == Some(e.kind) && e.at <= r.expiresAt
    requires !r.used || (a.CompleteChallenge? && r.status == Fulfilled)
    requires e.envelope == (if a.Submit? then Some(a.envelope) else None) && (NeedsTakeover(a) ==> IsTakeover(r))
    ensures Agrees(Stamped(Transition(r, a, now).request, written), h + [e])
  {
    SuccessTallies(r, h, a, now, written, e);
    SuccessShows(r, h, a, now, written, e);
  }

  /** What a logged success says about the decision behind it. */
  lemma SuccessDecided(got: Request, a: Action, get: real, check: real)
    requires SuccessOf(got, a, get, check) != []
    ensures var e := SuccessOf(got, a, get, check)[0];
            && SuccessOf(got, a, get, check) == [e] && KindOf(a) == Some(e.kind)
            && e.at == (if a.Cancel? then get else check) && e.envelope == (if a.Submit? then Some(a.envelope) else None)
    ensures Transition(got, a, check).Done? && Decide(got, a, check).0 == Some(Transition(got, a, check).request)
    ensures a.Cancel? ==> !CancelIsMoot(got)
    ensures !a.Cancel? ==> !IsExpired(got, check) && (!got.used || (a.CompleteChallenge? && got.status == Fulfilled))
    ensures NeedsTakeover(a) ==> IsTakeover(got)
  {}

  /** Without a success the record stays, keeps a frame, or is marked expired. */
  lemma NoSuccessDecided(got: Request, a: Action, get: real, check: real)
    requires SuccessOf(got, a, get, check) == []
    ensures var out := Decide(got, a, check).0;
            out.Some? ==> out.value == got.(status := Expired) || out.value == got.(frame := out.value.frame)
  {}

  lemma NoSuccessAgrees(got: Request, h: seq<Event>, v: Request)
    requires Agrees(got, h)
    requires v == got.(updatedAt := v.updatedAt, frame := v.frame) || v == got.(updatedAt := v.updatedAt, status := Expired)
    ensures Agrees(v, h)
  {}

  lemma UnusedIfOpen(got: Request, h: seq<Event>, get: real)
    requires Agrees(got, h) && ExpireIfNeeded(got, get) == got && !CancelIsMoot(got)
    ensures !got.used && get <= got.expiresAt
  {}

  /** A method keeps record and history in agreement, whatever it decides. */
  lemma DecideAgrees(got: Request, h: seq<Event>, a: Action, get: real, check: real, write: real)
    requires Agrees(got, h) && ExpireIfNeeded(got, get) == got
    ensures var out := Decide(got, a, check).0;
            Agrees(if out.Some? then Stamped(out.value, write) else got, h + SuccessOf(got, a, get, check))
  {
    var s, out := SuccessOf(got, a, get, check), Decide(got, a, check).0;
    if s == [] {
      assert h + s == h;
      NoSuccessDecided(got, a, get, check);
      NoSuccessAgrees(got, h, if out.Some? then Stamped(out.value, write) else got);
    } else {
      SuccessDecided(got, a, get, check);
      if a.Cancel? {
        UnusedIfOpen(got, h, get);
      }
      SuccessAgrees(got, h, a, check, write, s[0]);
    }
  }

  lemma ActAgrees(r: Request, h: seq<Event>, a: Action, c: Clock)
    requires Agrees(r, h)
    ensures Agrees(ActOne(r, a, c).0, h + Success(r, a, c))
  {
    ExpiryAgrees(r, h, c.get);
    DecideAgrees(ExpireIfNeeded(r, c.get), h, a, c.get, c.check, c.write);
  }

  // ---------------------------------------------------------------- runs

  datatype Op =
    | OpCreate(id: string, requestType: string, origin: string, contextId: Option<string>, ttl: real,
               fingerprint: Option<string>, now: real)
    | OpList(now: real)
    | OpGet(id: string, now: real)
    | OpAct(id: string, action: Action, clock: Clock)

  datatype World = World(store: Store, history: map<string, seq<Event>>)

  const Start := World(map[], map[])

  predicate Allowed(w: World, op: Op) {
    op.OpCreate? ==> op.id !in w.store && op.requestType in REQUEST_TYPES
  }

  predicate Whole(w: World) {
    w.store.Keys == w.history.Keys
  }

  function Advance(w: World, op: Op): World
    requires Whole(w)
  {
    match op
    case OpCreate(id, requestType, origin, contextId, ttl, fingerprint, now) =>
      World(w.store[id := Create(id, requestType, origin, contextId, ttl, fingerprint, now)], w.history[id := []])
    case OpList(now) => w.(store := List(w.store, now))
    case OpGet(id, now) => w.(store := Get(w.store, id, now))
    case OpAct(id, a, c) =>
      if id in w.store
      then World(Act(w.store, id, a, c).0, w.history[id := w.history[id] + Success(w.store[id], a, c)])
      else w
  }

  ghost predicate Inv(w: World) {
    Whole(w) && forall id :: id in w.store ==> Agrees(w.store[id], w.history[id])
  }

  lemma CreateAgrees(id: string, requestType: string, origin: string, contextId: Option<string>, ttl: real,
                     fingerprint: Option<string>, now: real)
    ensures Agrees(Create(id, requestType, origin, contextId, ttl, fingerprint, now), [])
  {}

  lemma OneChanges(w: World, id: string, r: Request, h: seq<Event>)
    requires Inv(w) && Agrees(r, h)
    ensures Inv(World(w.store[id := r], w.history[id := h]))
  {}

  lemma ListKeeps(w: World, now: real)
    requires Inv(w)
    ensures Inv(w.(store := List(w.store, now)))
  {
    forall id | id in w.store ensures Agrees(ExpireIfNeeded(w.store[id], now), w.history[id]) {
      ExpiryAgrees(w.store[id], w.history[id], now);
    }
  }

  lemma InvStep(w: World, op: Op)
    requires Inv(w) && Allowed(w, op)
    ensures Inv(Advance(w, op))
  {
    match op
    case OpCreate(id, requestType, origin, contextId, ttl, fingerprint, now) =>
      CreateAgrees(id, requestType, origin, contextId, ttl, fingerprint, now);
      OneChanges(w, id, Create(id, requestType, origin, contextId, ttl, fingerprint, now), []);
    case OpList(now) => ListKeeps(w, now);
    case OpGet(id, now) =>
      if id in w.store {
        ExpiryAgrees(w.store[id], w.history[id], now);
        OneChanges(w, id, ExpireIfNeeded(w.store[id], now), w.history[id]);
        assert w.history[id := w.history[id]] == w.history;
      }
    case OpAct(id, a, c) =>
      if id in w.store {
        ActAgrees(w.store[id], w.history[id], a, c);
        OneChanges(w, id, ActOne(w.store[id], a, c).0, w.history[id] + Success(w.store[id], a, c));
      }
  }

  ghost predicate IsRun(ws: seq<World>, ops: seq<Op>) {
    && |ws| == |ops| + 1
    && ws[0] == Start
    && forall n :: 0 <= n < |ops| ==> Whole(ws[n]) && Allowed(ws[n], ops[n]) && ws[n + 1] == Advance(ws[n], ops[n])
  }

  lemma {:induction false} InvAlong(ws: seq<World>, ops: seq<Op>, n: nat)
    requires IsRun(ws, ops) && n < |ws|
    ensures Inv(ws[n])
  {
    if n > 0 {
      InvAlong(ws, ops, n - 1);
      InvStep(ws[n - 1], ops[n - 1]);
    }
  }

  /**
   In any run, among the successes of one request at most one uses it up, except that a submission may be
   followed by one completion, and then by nothing; and no success comes after the request's expiry.
   */
  lemma UsedAtMostOnce(ws: seq<World>, ops: seq<Op>, n: nat, id: string)
    requires IsRun(ws, ops) && n < |ws| && id in ws[n].store
    ensures id in ws[n].history && SingleUse(ws[n].history[id])
    ensures ws[n].store[id].used <==> UsedUp(ws[n].history[id])
    ensures forall i :: 0 <= i < |ws[n].history[id]| ==> ws[n].history[id][i].at <= ws[n].store[id].expiresAt
  {
    InvAlong(ws, ops, n);
  }

  lemma {:induction false} EnvelopeExactly(h: seq<Event>)
    requires EnvelopesLogged(h)
    ensures EnvelopeOf(h).Some? <==> exists i :: 0 <= i < |h| && h[i].kind == Submitted
    ensures SingleUse(h) ==> forall i :: 0 <= i < |h| && h[i].kind == Submitted ==> EnvelopeOf(h) == h[i].envelope
  {
    if h != [] {
      var front := h[..|h| - 1];
      EnvelopeExactly(front);
      assert SingleUse(h) ==> forall i :: 0 <= i < |front| && h[i].kind == Submitted ==> h[|h| - 1].kind == Completed && i + 2 == |h|;
    }
  }

  /**
   In any run the record shows what its successes say: it holds the envelope of the one submission logged, and none if
   there is none; unless its time is up, its status is where the last success has led; and a handoff is the user's until it
   is handed back.
   */
  lemma StoredAsLogged(ws: seq<World>, ops: seq<Op>, n: nat, id: string)
    requires IsRun(ws, ops) && n < |ws| && id in ws[n].store
    ensures id in ws[n].history
    ensures var r, h := ws[n].store[id], ws[n].history[id];
            && (r.ciphertext.Some? <==> exists i :: 0 <= i < |h| && h[i].kind == Submitted)
            && (forall i :: 0 <= i < |h| && h[i].kind == Submitted ==> h[i].envelope.Some? && r.ciphertext == h[i].envelope)
            && (r.status == Expired || r.status == StatusAfter(h, IsHandoff(r)))
            && r.owner == (if IsHandoff(r) && !IsHandedBack(h) then User else Agent)
            && (r.completedByUser <==> h != [] && h[|h| - 1].kind != Withdrawn)
  {
    InvAlong(ws, ops, n);
    assert Agrees(ws[n].store[id], ws[n].history[id]);
    EnvelopeExactly(ws[n].history[id]);
  }

  lemma FrameStep(r: Request, a: Action, c: Clock)
    ensures ActOne(r, a, c).0.frame == if a.RecordFrame? && ActOne(r, a, c).1.Done? then Some(a.newFrame) else r.frame
  {
    FrameWritten(ExpireIfNeeded(r, c.get), a, c.check);
  }

  lemma FrameWritten(r: Request, a: Action, now: real)
    ensures var (out, reply) := Decide(r, a, now);
            && (a.RecordFrame? && reply.Done? ==> out.Some? && out.value.frame == Some(a.newFrame))
            && (!(a.RecordFrame? && reply.Done?) && out.Some? ==> out.value.frame == r.frame)
  {}

  /** The call keeps a frame for this request. */
  predicate KeepsFrame(w: World, op: Op, id: string) {
    op.OpAct? && op.id == id && id in w.store && op.action.RecordFrame? && ActOne(w.store[id], op.action, op.clock).1.Done?
  }

  /** The frame on file is the last one kept: it stays as long as no other is. */
  lemma {:induction false} FrameStays(ws: seq<World>, ops: seq<Op>, m: nat, n: nat, id: string)
    requires IsRun(ws, ops) && m <= n < |ws| && id in ws[m].store && forall k :: m <= k < n ==> !KeepsFrame(ws[k], ops[k], id)
    ensures id in ws[n].store && ws[n].store[id].frame == ws[m].store[id].frame
  {
    if m < n {
      FrameStays(ws, ops, m, n - 1, id);
      FrameStaysAt(ws, ops, n - 1, id);
    }
  }

  lemma FrameStaysAt(ws: seq<World>, ops: seq<Op>, n: nat, id: string)
    requires IsRun(ws, ops) && n < |ops| && id in ws[n].store
    ensures id in ws[n + 1].store
    ensures !KeepsFrame(ws[n], ops[n], id) ==> ws[n + 1].store[id].frame == ws[n].store[id].frame
    ensures KeepsFrame(ws[n], ops[n], id) ==> ws[n + 1].store[id].frame == Some(ops[n].action.newFrame)
  {
    var op := ops[n];
    if op.OpAct? && op.id == id {
      FrameStep(ws[n].store[id], op.action, op.clock);
    }
  }

  /** What is logged: a call that is done, unless it only keeps or checks a frame, or cancels what is settled. */
  lemma LoggedExactly(r: Request, a: Action, c: Clock)
    ensures var s, settled := Success(r, a, c), a.Cancel? && IsSettled(ExpireIfNeeded(r, c.get).status);
            if !ActOne(r, a, c).1.Done? || settled then s == []
            else match a
                 case Submit(envelope) => s == [Event(Submitted, c.check, Some(envelope))]
                 case Approve => s == [Event(Agreed, c.check, None)]
                 case Deny => s == [Event(Refused, c.check, None)]
                 case Cancel => s == [Event(Withdrawn, c.get, None)]
                 case CompleteChallenge => s == [Event(Completed, c.check, None)]
                 case Release => s == [Event(HandedBack, c.check, None)]
                 case ConsumeApproval => s == [Event(Spent, c.check, None)]
                 case _ => s == []
  {}

  lemma UsedUpGrows(h: seq<Event>, g: seq<Event>)
    requires h <= g && UsedUp(h)
    ensures UsedUp(g)
  {}

  /** Between two worlds a request is kept, its successes only extended, and `used` never taken back. */
  ghost predicate Grown(w: World, v: World, id: string) {
    && id in w.store && id in w.history && id in v.store && id in v.history
    && w.history[id] <= v.history[id]
    && SameIdentity(v.store[id], w.store[id])
    && (w.store[id].used ==> v.store[id].used)
  }

  lemma GrownTransitive(u: World, v: World, w: World, id: string)
    requires Grown(u, v, id) && Grown(v, w, id)
    ensures Grown(u, w, id)
  {}

  lemma StepExtends(w: World, op: Op, id: string)
    requires Inv(w) && Allowed(w, op) && id in w.store
    ensures id in Advance(w, op).store && id in Advance(w, op).history
    ensures w.history[id] <= Advance(w, op).history[id]
    ensures SameIdentity(Advance(w, op).store[id], w.store[id])
  {
    if op.OpAct? && op.id == id {
      ActKeepsIdentity(w.store[id], op.action, op.clock);
    }
  }

  lemma StepGrows(w: World, op: Op, id: string)
    requires Inv(w) && Allowed(w, op) && id in w.store
    ensures Grown(w, Advance(w, op), id)
  {
    var v := Advance(w, op);
    InvStep(w, op);
    StepExtends(w, op, id);
    assert Agrees(w.store[id], w.history[id]);
    assert Agrees(v.store[id], v.history[id]);
    if w.store[id].used {
      UsedUpGrows(w.history[id], v.history[id]);
    }
  }

  lemma GrowsAt(ws: seq<World>, ops: seq<Op>, n: nat, id: string)
    requires IsRun(ws, ops) && n < |ops| && id in ws[n].store
    ensures Grown(ws[n], ws[n + 1], id)
  {
    InvAlong(ws, ops, n);
    StepGrows(ws[n], ops[n], id);
  }

  /** From every world to the next, every request grows. */
  ghost predicate AllGrow(ws: seq<World>) {
    forall n, id {:trigger Grown(ws[n], ws[n + 1], id)} :: 0 <= n < |ws| - 1 && id in ws[n].store ==> Grown(ws[n], ws[n + 1], id)
  }

  lemma RunGrows(ws: seq<World>, ops: seq<Op>)
    requires IsRun(ws, ops)
    ensures AllGrow(ws)
  {
    forall n, id | 0 <= n < |ws| - 1 && id in ws[n].store ensures Grown(ws[n], ws[n + 1], id) {
      GrowsAt(ws, ops, n, id);
    }
  }

  lemma {:induction false} GrownAlong(ws: seq<World>, m: nat, n: nat, id: string)
    requires AllGrow(ws) && m < n < |ws| && id in ws[m].store
    ensures Grown(ws[m], ws[n], id)
    decreases n - m
  {
    assert Grown(ws[m], ws[m + 1], id);
    if m + 1 < n {
      GrownAlong(ws, m + 1, n, id);
      GrownTransitive(ws[m], ws[m + 1], ws[n], id);
    }
  }

  /** A request is never lost, its successes are never unmade, and `used` never goes back to false. */
  lemma UsedForever(ws: seq<World>, ops: seq<Op>, m: nat, n: nat, id: string)
    requires IsRun(ws, ops) && m <= n < |ws| && id in ws[m].store
    ensures Grown(ws[m], ws[n], id)
  {
    RunGrows(ws, ops);
    if m < n {
      GrownAlong(ws, m, n, id);
    } else {
      InvAlong(ws, ops, m);
    }
  }
}
