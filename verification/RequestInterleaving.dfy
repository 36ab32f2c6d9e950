/**
 The request file under any interleaving of locked sections. A method is not one section: a thread reads its
 request in one, decides, and writes back what it made of the record it read in another, so between the two
 other threads may run sections of their own. What survives every interleaving is a frame property; single use
 survives wherever no other write to the request falls between a method's read and its write, and ends exactly where
 a further success is logged on a request used up.
 */
module RequestInterleaving {
  import opened Prelude
  import opened Requests
  import opened RequestRuns

  type Thread = nat

  /** A method between its two sections: what it read, when, and how many writes had been made by then. */
  datatype Held = Held(id: string, action: Action, got: Request, get: real, since: nat)

  datatype State = State(
    store: Store,
    history: map<string, seq<Event>>,
    held: map<Thread, Held>,
    writes: seq<string>)          // the request of every write so far, in order

  const START := State(map[], map[], map[], [])

  datatype Section =
    | Insert(id: string, requestType: string, origin: string, contextId: Option<string>, ttl: real,
             fingerprint: Option<string>, now: real)
    | Sweep(now: real)
    | Look(id: string, now: real)
    | Read(thread: Thread, id: string, action: Action, now: real)
    | Write(thread: Thread, check: real, now: real)

  predicate Enabled(w: State, s: Section) {
    match s
    case Insert(id, requestType, _, _, _, _, _) => id !in w.store && requestType in REQUEST_TYPES
    case Read(t, _, _, _) => t !in w.held
    case Write(t, _, _) => t in w.held
    case _ => true
  }

  /** The record a thread is about to write back, computed from what it read; an expiry it finds is written too. */
  function Outgoing(h: Held, check: real): Option<Request> {
    Decide(h.got, h.action, check).0
  }

  function Next(w: State, s: Section): State
    requires Enabled(w, s)
  {
    match s
    case Insert(id, requestType, origin, contextId, ttl, fingerprint, now) =>
      w.(store := w.store[id := Create(id, requestType, origin, contextId, ttl, fingerprint, now)],
         history := w.history[id := []])
    case Sweep(now) => w.(store := List(w.store, now))
    case Look(id, now) => w.(store := Get(w.store, id, now))
    case Read(t, id, a, now) =>
      if id !in w.store then w
      else
        var got := ExpireIfNeeded(w.store[id], now);
        w.(store := w.store[id := got], held := w.held[t := Held(id, a, got, now, |w.writes|)])
    case Write(t, check, now) =>
      var h := w.held[t];
      var out := Outgoing(h, check);
      var v := w.(held := w.held - {t},
                  history := w.history[h.id := SuccessesOf(w, h.id) + SuccessOf(h.got, h.action, h.get, check)]);
      if out.None? then v else v.(store := Update(w.store, out.value, now), writes := w.writes + [h.id])
  }

  function SuccessesOf(w: State, id: string): seq<Event> {
    if id in w.history then w.history[id] else []
  }

  /** The section writes this request back. */
  predicate WritesTo(w: State, s: Section, id: string) {
    s.Write? && s.thread in w.held && w.held[s.thread].id == id && Outgoing(w.held[s.thread], s.check).Some?
  }

  /** No write to its request has been made since the thread read it. */
  ghost predicate Undisturbed(writes: seq<string>, h: Held) {
    forall k :: h.since <= k < |writes| ==> writes[k] != h.id
  }

  // ---------------------------------------------------------------- what every interleaving keeps

  ghost predicate Shape(w: State) {
    && w.store.Keys == w.history.Keys
    && (forall id :: id in w.store ==> w.store[id].id == id && w.store[id].oneTimeUse)
    && (forall t :: t in w.held ==> HeldShape(w.store, w.writes, w.held[t]))
  }

  ghost predicate HeldShape(store: Store, writes: seq<string>, h: Held) {
    h.id in store && h.got.id == h.id && h.got.oneTimeUse && h.since <= |writes| && ExpireIfNeeded(h.got, h.get) == h.got
  }

  lemma StepShape(w: State, s: Section)
    requires Shape(w) && Enabled(w, s)
    ensures Shape(Next(w, s))
  {
    if s.Write? {
      WriteShape(w, s);
    }
  }

  lemma WriteShape(w: State, s: Section)
    requires Shape(w) && Enabled(w, s) && s.Write?
    ensures Shape(Next(w, s))
  {
    var h := w.held[s.thread];
    if Outgoing(h, s.check).Some? {
      DecideKeepsIdentity(h.got, h.action, s.check, Outgoing(h, s.check).value);
    }
  }

  ghost predicate IsPath(ws: seq<State>, sections: seq<Section>) {
    && |ws| == |sections| + 1
    && forall n {:trigger sections[n]} :: 0 <= n < |sections| ==>
         Enabled(ws[n], sections[n]) && ws[n + 1] == Next(ws[n], sections[n])
  }

  ghost predicate IsRun(ws: seq<State>, sections: seq<Section>) {
    IsPath(ws, sections) && ws[0] == START
  }

  lemma {:induction false} ShapeAlong(ws: seq<State>, sections: seq<Section>, n: nat)
    requires IsRun(ws, sections) && n < |ws|
    ensures Shape(ws[n])
  {
    if n > 0 {
      ShapeAlong(ws, sections, n - 1);
      StepShape(ws[n - 1], sections[n - 1]);
    }
  }

  lemma Extend(ws: seq<State>, sections: seq<Section>, s: Section)
    requires IsRun(ws, sections) && Enabled(ws[|sections|], s)
    ensures IsRun(ws + [Next(ws[|sections|], s)], sections + [s])
  {}

  /** However sections interleave, no request is ever lost. */
  lemma {:induction false} NothingLost(ws: seq<State>, sections: seq<Section>, m: nat, n: nat)
    requires IsPath(ws, sections) && m <= n < |ws|
    ensures ws[m].store.Keys <= ws[n].store.Keys
  {
    if m < n {
      NothingLost(ws, sections, m, n - 1);
      assert ws[n] == Next(ws[n - 1], sections[n - 1]);
    }
  }

  predicate Addresses(w: State, s: Section, id: string) {
    match s
    case Insert(x, _, _, _, _, _, _) => x == id
    case Look(x, _) => x == id
    case Read(_, x, _, _) => x == id
    case Write(_, _, _) => WritesTo(w, s, id)
    case Sweep(_) => false
  }

  /** r has been marked expired at this time, as a sweep does. */
  predicate SweptAt(r: Request, r': Request, now: real) {
    IsExpirable(r.status) && IsExpired(r, now) && r' == r.(status := Expired, updatedAt := now)
  }

  ghost predicate SweptBetween(sections: seq<Section>, m: nat, n: nat, r: Request, r': Request)
    requires n <= |sections|
  {
    exists k :: m <= k < n && sections[k].Sweep? && SweptAt(r, r', sections[k].now)
  }

  /** A record as the sweeps among these sections leave it. */
  function Swept(r: Request, sections: seq<Section>, m: nat, n: nat): Request
    requires m <= n <= |sections|
  {
    if m == n then r
    else
      var before := Swept(r, sections, m, n - 1);
      if sections[n - 1].Sweep? then ExpireIfNeeded(before, sections[n - 1].now) else before
  }

  /** Sweeping changes a record at most once, to expired. */
  lemma {:induction false} SweptAtMostOnce(r: Request, sections: seq<Section>, m: nat, n: nat)
    requires m <= n <= |sections|
    ensures Swept(r, sections, m, n) == r || SweptBetween(sections, m, n, r, Swept(r, sections, m, n))
  {
    if m < n {
      SweptAtMostOnce(r, sections, m, n - 1);
      var before, after := Swept(r, sections, m, n - 1), Swept(r, sections, m, n);
      if before != r {
        var j :| m <= j < n - 1 && sections[j].Sweep? && SweptAt(r, before, sections[j].now);
        assert after == before;
      } else if after != before {
        assert SweptAt(r, after, sections[n - 1].now);
      }
    }
  }

  lemma UnaddressedStep(w: State, s: Section, id: string, v: State)
    requires Shape(w) && Enabled(w, s) && v == Next(w, s) && id in w.store && !Addresses(w, s, id)
    ensures id in v.store && v.store[id] == if s.Sweep? then ExpireIfNeeded(w.store[id], s.now) else w.store[id]
  {
    if s.Write? && Outgoing(w.held[s.thread], s.check).Some? {
      DecideKeepsIdentity(w.held[s.thread].got, w.held[s.thread].action, s.check, Outgoing(w.held[s.thread], s.check).value);
    }
  }

  predicate Unaddressed(ws: seq<State>, sections: seq<Section>, m: nat, n: nat, id: string)
    requires m <= n <= |sections| && n <= |ws|
  {
    m == n || (Unaddressed(ws, sections, m, n - 1, id) && !Addresses(ws[n - 1], sections[n - 1], id))
  }

  lemma {:induction false} UnaddressedMeans(ws: seq<State>, sections: seq<Section>, m: nat, n: nat, id: string)
    requires m <= n <= |sections| && n <= |ws|
    ensures Unaddressed(ws, sections, m, n, id) <==> forall k :: m <= k < n ==> !Addresses(ws[k], sections[k], id)
  {
    if m < n {
      UnaddressedMeans(ws, sections, m, n - 1, id);
    }
  }

  lemma {:induction false} OnlySwept(ws: seq<State>, sections: seq<Section>, m: nat, n: nat, id: string)
    requires IsRun(ws, sections) && m <= n < |ws| && id in ws[m].store && Unaddressed(ws, sections, m, n, id)
    ensures id in ws[n].store && ws[n].store[id] == Swept(ws[m].store[id], sections, m, n)
  {
    if m < n {
      OnlySwept(ws, sections, m, n - 1, id);
      ShapeAlong(ws, sections, n - 1);
      UnaddressedStep(ws[n - 1], sections[n - 1], id, ws[n]);
    }
  }

  /**
   A request that no section addresses either keeps its record exactly, or has been marked expired by a
   sweep that found it expirable and overdue; nothing else about it can have changed.
   */
  lemma UntouchedUnlessSwept(ws: seq<State>, sections: seq<Section>, m: nat, n: nat, id: string)
    requires IsRun(ws, sections) && m <= n < |ws| && id in ws[m].store
    requires forall k :: m <= k < n ==> !Addresses(ws[k], sections[k], id)
    ensures id in ws[n].store
    ensures ws[n].store[id] == ws[m].store[id] || SweptBetween(sections, m, n, ws[m].store[id], ws[n].store[id])
  {
    UnaddressedMeans(ws, sections, m, n, id);
    OnlySwept(ws, sections, m, n, id);
    SweptAtMostOnce(ws[m].store[id], sections, m, n);
  }

  // ---------------------------------------------------------------- single use

  /**
   The record and the history of one request agree, and so do those of every thread that read the request
   after the last write to it.
   */
  ghost predicate Clean(w: State, id: string) {
    && (id in w.store && id in w.history ==> Agrees(w.store[id], w.history[id]))
    && (forall t :: t in w.held && w.held[t].id == id && Undisturbed(w.writes, w.held[t]) ==>
          id in w.store && id in w.history && Agrees(w.held[t].got, w.history[id]) && w.held[t].got.used == w.store[id].used)
  }

  /** The section writes the request back over a write the thread has not seen. */
  ghost predicate Overwrites(w: State, s: Section, id: string) {
    WritesTo(w, s, id) && !Undisturbed(w.writes, w.held[s.thread])
  }

  /** A method that writes nothing back has succeeded at nothing that matters. */
  lemma OnlyWritesSucceed(h: Held, check: real)
    requires Outgoing(h, check).None?
    ensures SuccessOf(h.got, h.action, h.get, check) == []
  {}

  lemma WriteClean(w: State, s: Section, id: string)
    requires Shape(w) && Clean(w, id) && Enabled(w, s) && WritesTo(w, s, id) && !Overwrites(w, s, id)
    ensures Clean(Next(w, s), id)
  {
    var h, v := w.held[s.thread], Next(w, s);
    var out := Outgoing(h, s.check).value;
    DecideKeepsIdentity(h.got, h.action, s.check, out);
    DecideAgrees(h.got, w.history[id], h.action, h.get, s.check, s.now);
    assert v.store[id] == Stamped(out, s.now);
    forall t | t in v.held && v.held[t].id == id ensures !Undisturbed(v.writes, v.held[t]) {
      assert HeldShape(w.store, w.writes, w.held[t]);
      assert v.writes[|w.writes|] == id;
    }
  }

  lemma OtherWriteClean(w: State, s: Section, id: string)
    requires Shape(w) && Clean(w, id) && Enabled(w, s) && s.Write? && !WritesTo(w, s, id)
    ensures Clean(Next(w, s), id)
  {
    var h, v := w.held[s.thread], Next(w, s);
    if Outgoing(h, s.check).Some? {
      DecideKeepsIdentity(h.got, h.action, s.check, Outgoing(h, s.check).value);
      forall t | t in v.held && v.held[t].id == id && Undisturbed(v.writes, v.held[t]) ensures Undisturbed(w.writes, w.held[t]) {
        assert forall k :: 0 <= k < |w.writes| ==> v.writes[k] == w.writes[k];
      }
    } else {
      OnlyWritesSucceed(h, s.check);
      assert SuccessesOf(w, h.id) + [] == SuccessesOf(w, h.id);
    }
  }

  lemma ReadClean(w: State, s: Section, id: string)
    requires Shape(w) && Clean(w, id) && Enabled(w, s) && s.Read?
    ensures Clean(Next(w, s), id)
  {
    if s.id == id && id in w.store {
      ExpiryAgrees(w.store[id], w.history[id], s.now);
    }
  }

  lemma StepClean(w: State, s: Section, id: string)
    requires Shape(w) && Clean(w, id) && Enabled(w, s) && !Overwrites(w, s, id)
    ensures Clean(Next(w, s), id)
  {
    match s
    case Insert(_, _, _, _, _, _, _) =>
    case Sweep(now) =>
      if id in w.store {
        ExpiryAgrees(w.store[id], w.history[id], now);
      }
    case Look(_, now) =>
      if id in w.store {
        ExpiryAgrees(w.store[id], w.history[id], now);
      }
    case Read(_, _, _, _) => ReadClean(w, s, id);
    case Write(_, _, _) =>
      if WritesTo(w, s, id) {
        WriteClean(w, s, id);
      } else {
        OtherWriteClean(w, s, id);
      }
  }

  /** Up to this point no thread has written this request back over a write it had not seen. */
  ghost predicate NeverOverwritten(ws: seq<State>, sections: seq<Section>, n: nat, id: string)
    requires IsRun(ws, sections) && n < |ws|
  {
    forall k :: 0 <= k < n ==> !Overwrites(ws[k], sections[k], id)
  }

  lemma {:induction false} CleanAlong(ws: seq<State>, sections: seq<Section>, n: nat, id: string)
    requires IsRun(ws, sections) && n < |ws| && NeverOverwritten(ws, sections, n, id)
    ensures Shape(ws[n]) && Clean(ws[n], id)
  {
    ShapeAlong(ws, sections, n);
    if n > 0 {
      CleanAlong(ws, sections, n - 1, id);
      StepClean(ws[n - 1], sections[n - 1], id);
    }
  }

  /**
   Single use under interleaving: in any run in which no write to a request falls between another method's read
   and its write, at most one success uses the request up, except one completion right after a submission, and
   no success is after its expiry.
   */
  lemma SingleUseUnlessOverwritten(ws: seq<State>, sections: seq<Section>, n: nat, id: string)
    requires IsRun(ws, sections) && n < |ws| && id in ws[n].store && NeverOverwritten(ws, sections, n, id)
    ensures id in ws[n].history && SingleUse(ws[n].history[id])
    ensures ws[n].store[id].used <==> UsedUp(ws[n].history[id])
    ensures forall i :: 0 <= i < |ws[n].history[id]| ==> ws[n].history[id][i].at <= ws[n].store[id].expiresAt
    ensures Shows(ws[n].store[id], ws[n].history[id])
  {
    CleanAlong(ws, sections, n, id);
  }

  // ---------------------------------------------------------------- where single use ends

  /** In a history of single use, what uses the request up is followed by its completion at most. */
  lemma UseFollowed(h: seq<Event>, e: Event, i: nat)
    requires SingleUse(h + [e]) && i < |h| && UsesUp(h[i])
    ensures i == |h| - 1 && h[i].kind == Submitted && e.kind == Completed
  {
    var g := h + [e];
    assert g[i] == h[i] && g[|h|] == e;
  }

  lemma SingleBefore(h: seq<Event>, e: Event)
    requires SingleUse(h + [e])
    ensures SingleUse(h) && (!UsedUp(h) || (EndsWith(h, Submitted) && e.kind == Completed))
  {
    forall i | 0 <= i < |h| && UsesUp(h[i]) ensures i == |h| - 1 {
      UseFollowed(h, e, i);
    }
    if UsedUp(h) {
      var i :| 0 <= i < |h| && UsesUp(h[i]);
      UseFollowed(h, e, i);
    }
  }

  /** A further success keeps single use exactly if it is the first use, or the completion of a submission. */
  lemma FurtherSuccess(h: seq<Event>, e: Event)
    ensures SingleUse(h + [e]) <==> SingleUse(h) && (!UsedUp(h) || (EndsWith(h, Submitted) && e.kind == Completed))
  {
    if SingleUse(h + [e]) {
      SingleBefore(h, e);
    }
    AppendFacts(h, e);
    if SingleUse(h) && EndsWith(h, Submitted) && e.kind == Completed {
      CompletionFollows(h, e);
    }
  }

  /** The section logs a success on a request used up before, and not as the completion of a submission. */
  ghost predicate UsesAgain(w: State, s: Section, id: string) {
    && s.Write? && s.thread in w.held && w.held[s.thread].id == id && UsedUp(SuccessesOf(w, id))
    && var h := w.held[s.thread];
       var success := SuccessOf(h.got, h.action, h.get, s.check);
       success != [] && !(EndsWith(SuccessesOf(w, id), Submitted) && success[0].kind == Completed)
  }

  /** What a section adds to a request's successes: at most the one its method has achieved. */
  lemma SuccessesStep(w: State, s: Section, id: string, v: State)
    requires Shape(w) && Enabled(w, s) && v == Next(w, s)
    ensures SuccessesOf(v, id) == SuccessesOf(w, id)
              + if s.Write? && w.held[s.thread].id == id
                then SuccessOf(w.held[s.thread].got, w.held[s.thread].action, w.held[s.thread].get, s.check) else []
  {}

  lemma SingleUseStep(w: State, s: Section, id: string, v: State)
    requires Shape(w) && Enabled(w, s) && v == Next(w, s)
    ensures SingleUse(SuccessesOf(v, id)) <==> SingleUse(SuccessesOf(w, id)) && !UsesAgain(w, s, id)
  {
    SuccessesStep(w, s, id, v);
    var before := SuccessesOf(w, id);
    if s.Write? && w.held[s.thread].id == id {
      var h := w.held[s.thread];
      var success := SuccessOf(h.got, h.action, h.get, s.check);
      if success != [] {
        assert success == [success[0]];
        FurtherSuccess(before, success[0]);
      } else {
        assert before + success == before;
      }
    } else {
      assert SuccessesOf(v, id) == before;
    }
  }

  ghost predicate NeverAgain(ws: seq<State>, sections: seq<Section>, n: nat, id: string)
    requires n <= |ws| && n <= |sections|
  {
    forall k :: 0 <= k < n ==> !UsesAgain(ws[k], sections[k], id)
  }

  lemma NeverAgainStep(ws: seq<State>, sections: seq<Section>, n: nat, id: string)
    requires n < |ws| && n < |sections|
    ensures NeverAgain(ws, sections, n + 1, id) <==> NeverAgain(ws, sections, n, id) && !UsesAgain(ws[n], sections[n], id)
  {}

  /**
   In every run, single use has held up to a point if and only if no section so far has logged a further success on
   the request when it was used up, other than the completion of a submission.
   */
  lemma {:induction false} SingleUseExactly(ws: seq<State>, sections: seq<Section>, n: nat, id: string)
    requires IsRun(ws, sections) && n < |ws|
    ensures SingleUse(SuccessesOf(ws[n], id)) <==> NeverAgain(ws, sections, n, id)
  {
    if n > 0 {
      SingleUseExactly(ws, sections, n - 1, id);
      ShapeAlong(ws, sections, n - 1);
      SingleUseStep(ws[n - 1], sections[n - 1], id, ws[n]);
      NeverAgainStep(ws, sections, n - 1, id);
    }
  }

  // ---------------------------------------------------------------- when `used` goes back

  /** The record written leaves the request unused: an approval, a frame, or an expiry, of a request read unused. */
  predicate WritesUnused(h: Held, check: real) {
    && !h.got.used && Outgoing(h, check).Some?
    && (h.action.Approve? || h.action.RecordFrame? || Decide(h.got, h.action, check).1 == RequestExpired)
  }

  lemma OutgoingUsed(h: Held, check: real)
    requires h.got.oneTimeUse && Outgoing(h, check).Some?
    ensures !Outgoing(h, check).value.used <==> WritesUnused(h, check)
  {}

  /** In every state of every run, a section takes `used` back exactly when it is such a write of a request used by now. */
  lemma UsedTakenBackExactly(ws: seq<State>, sections: seq<Section>, n: nat, id: string)
    requires IsRun(ws, sections) && n < |sections| && id in ws[n].store
    ensures id in ws[n + 1].store
    ensures ws[n].store[id].used && !ws[n + 1].store[id].used <==>
            ws[n].store[id].used && WritesTo(ws[n], sections[n], id) && WritesUnused(ws[n].held[sections[n].thread], sections[n].check)
  {
    ShapeAlong(ws, sections, n);
    var w, s := ws[n], sections[n];
    if WritesTo(w, s, id) {
      var h := w.held[s.thread];
      DecideKeepsIdentity(h.got, h.action, s.check, Outgoing(h, s.check).value);
      OutgoingUsed(h, s.check);
    } else if !Addresses(w, s, id) {
      UnaddressedStep(w, s, id, ws[n + 1]);
    }
  }

  lemma UsedStep(ws: seq<State>, sections: seq<Section>, n: nat, id: string)
    requires IsRun(ws, sections) && n < |sections| && id in ws[n].store && NeverOverwritten(ws, sections, n + 1, id)
    ensures id in ws[n + 1].store && (ws[n].store[id].used ==> ws[n + 1].store[id].used)
  {
    UsedTakenBackExactly(ws, sections, n, id);
    if WritesTo(ws[n], sections[n], id) {
      CleanAlong(ws, sections, n, id);
    }
  }

  /** Which needs an overwritten write: without one, `used` is never taken back. */
  lemma {:induction false} UsedUnlessOverwritten(ws: seq<State>, sections: seq<Section>, m: nat, n: nat, id: string)
    requires IsRun(ws, sections) && m <= n < |ws| && id in ws[m].store && NeverOverwritten(ws, sections, n, id)
    ensures id in ws[n].store && (ws[m].store[id].used ==> ws[n].store[id].used)
  {
    NothingLost(ws, sections, m, n);
    if m < n {
      UsedUnlessOverwritten(ws, sections, m, n - 1, id);
      UsedStep(ws, sections, n - 1, id);
    }
  }

  // ---------------------------------------------------------------- what an overwritten write is

  /** The thread's read at section m is the one it is still holding at n. */
  ghost predicate ReadAt(ws: seq<State>, sections: seq<Section>, m: nat, n: nat, t: Thread)
    requires IsRun(ws, sections) && n < |ws| && t in ws[n].held
  {
    && m < n && sections[m].Read? && sections[m].thread == t
    && t in ws[m + 1].held && ws[m + 1].held[t] == ws[n].held[t] && ws[n].held[t].since == |ws[m].writes|
  }

  lemma {:induction false} HeldWasRead(ws: seq<State>, sections: seq<Section>, n: nat, t: Thread) returns (m: nat)
    requires IsRun(ws, sections) && n < |ws| && t in ws[n].held
    ensures ReadAt(ws, sections, m, n, t)
  {
    var s := sections[n - 1];
    assert ws[n] == Next(ws[n - 1], s);
    if s.Read? && s.thread == t {
      m := n - 1;
    } else {
      m := HeldWasRead(ws, sections, n - 1, t);
    }
  }

  lemma WriteStep(w: State, s: Section, v: State, id: string)
    requires Enabled(w, s) && v == Next(w, s)
    ensures w.writes <= v.writes
    ensures forall from :: 0 <= from <= |w.writes| ==> (id in v.writes[from..] <==> id in w.writes[from..] || WritesTo(w, s, id))
  {
    if s.Write? && Outgoing(w.held[s.thread], s.check).Some? {
      assert forall from :: 0 <= from <= |w.writes| ==> v.writes[from..] == w.writes[from..] + [w.held[s.thread].id];
    }
  }

  ghost predicate WrittenBetween(ws: seq<State>, sections: seq<Section>, m: nat, n: nat, id: string)
    requires n <= |sections| && n <= |ws|
  {
    exists k :: m <= k < n && WritesTo(ws[k], sections[k], id)
  }

  lemma WrittenBetweenStep(ws: seq<State>, sections: seq<Section>, m: nat, n: nat, id: string)
    requires m <= n < |sections| && n < |ws|
    ensures WrittenBetween(ws, sections, m, n + 1, id) <==> WrittenBetween(ws, sections, m, n, id) || WritesTo(ws[n], sections[n], id)
  {}

  /** The log of writes between two points lists exactly the sections that wrote. */
  lemma {:induction false} WritesLogged(ws: seq<State>, sections: seq<Section>, m: nat, n: nat, id: string)
    requires IsRun(ws, sections) && m <= n < |ws|
    ensures ws[m].writes <= ws[n].writes
    ensures id in ws[n].writes[|ws[m].writes|..] <==> WrittenBetween(ws, sections, m, n, id)
  {
    if m < n {
      WritesLogged(ws, sections, m, n - 1, id);
      WriteStep(ws[n - 1], sections[n - 1], ws[n], id);
      WrittenBetweenStep(ws, sections, m, n - 1, id);
    }
  }

  /**
   A write is made over one its thread has not seen exactly when some section between the thread's read and
   this write wrote the same request.
   */
  lemma OverwritesExactly(ws: seq<State>, sections: seq<Section>, n: nat, t: Thread, m: nat)
    requires IsRun(ws, sections) && n < |ws| && t in ws[n].held && ReadAt(ws, sections, m, n, t)
    ensures !Undisturbed(ws[n].writes, ws[n].held[t]) <==> WrittenBetween(ws, sections, m + 1, n, ws[n].held[t].id)
  {
    var h := ws[n].held[t];
    assert ws[m + 1] == Next(ws[m], sections[m]);
    assert h.since == |ws[m + 1].writes|;
    WritesLogged(ws, sections, m + 1, n, h.id);
    DisturbedTail(ws[n].writes, h);
  }

  lemma DisturbedTail(writes: seq<string>, h: Held)
    requires h.since <= |writes|
    ensures !Undisturbed(writes, h) <==> h.id in writes[h.since..]
  {
    var tail := writes[h.since..];
    if h.id in tail {
      var k :| 0 <= k < |tail| && tail[k] == h.id;
      assert writes[h.since + k] == h.id;
    }
    if k :| h.since <= k < |writes| && writes[k] == h.id {
      assert tail[k - h.since] == h.id;
    }
  }

  // A denial lost to an approval.

  function NewRequest(id: string, t: real): Request {
    Create(id, "payment_approval", "", None, 300.0, None, t)
  }

  function BothRead(id: string, t: real): State {
    var r := NewRequest(id, t);
    State(map[id := r], map[id := []], map[0 := Held(id, Deny, r, t, 0), 1 := Held(id, Approve, r, t, 0)], [])
  }

  function DenialWritten(id: string, t: real): State {
    var r := Stamped(Transition(NewRequest(id, t), Deny, t).request, t);
    State(map[id := r], map[id := [Event(Refused, t, None)]], map[1 := BothRead(id, t).held[1]], [id])
  }

  function ApprovalWritten(id: string, t: real): State {
    var r := Stamped(Transition(NewRequest(id, t), Approve, t).request, t);
    State(map[id := r], map[id := [Event(Refused, t, None), Event(Agreed, t, None)]], map[], [id, id])
  }

  lemma DenialStep(id: string, t: real)
    ensures Enabled(BothRead(id, t), Write(0, t, t)) && Next(BothRead(id, t), Write(0, t, t)) == DenialWritten(id, t)
  {
    var v, want := Next(BothRead(id, t), Write(0, t, t)), DenialWritten(id, t);
    assert v.history[id] == want.history[id];
    assert v.store == want.store && v.history == want.history && v.held == want.held && v.writes == want.writes;
  }

  lemma ApprovalStep(id: string, t: real)
    ensures Enabled(DenialWritten(id, t), Write(1, t, t)) && Next(DenialWritten(id, t), Write(1, t, t)) == ApprovalWritten(id, t)
  {
    var v, want := Next(DenialWritten(id, t), Write(1, t, t)), ApprovalWritten(id, t);
    assert v.history[id] == want.history[id];
    assert v.store == want.store && v.history == want.history && v.held == want.held && v.writes == want.writes;
  }

  lemma OverwritesSeen(id: string, t: real)
    ensures Overwrites(DenialWritten(id, t), Write(1, t, t), id) && !SingleUse(ApprovalWritten(id, t).history[id])
  {
    assert DenialWritten(id, t).writes[0] == id;
    var h := ApprovalWritten(id, t).history[id];
    assert UsesUp(h[0]) && h[0].kind == Refused && h[1].kind == Agreed;
  }

  lemma TwoReads(id: string, t: real) returns (ws: seq<State>, sections: seq<Section>)
    ensures IsRun(ws, sections) && |sections| == 3 && ws[3] == BothRead(id, t)
  {
    var s0 := Insert(id, "payment_approval", "", None, 300.0, None, t);
    var s1, s2 := Read(0, id, Deny, t), Read(1, id, Approve, t);
    var w1 := Next(START, s0);
    var w2 := Next(w1, s1);
    ws, sections := [START, w1, w2, Next(w2, s2)], [s0, s1, s2];
  }

  /**
   Single use does fail without the condition: two threads read the same pending request, one denies it and
   is told so, the other then writes its approval, and the request is usable again after two successes.
   */
  lemma LostDenial(id: string, t: real) returns (ws: seq<State>, sections: seq<Section>)
    ensures IsRun(ws, sections) && |sections| == 5 && ws[4] == DenialWritten(id, t) && ws[5] == ApprovalWritten(id, t)
    ensures ws[4].store[id].used && ws[4].store[id].status == Denied
    ensures !ws[5].store[id].used && ws[5].store[id].status == Approved && !SingleUse(ws[5].history[id])
    ensures Overwrites(ws[4], sections[4], id)
  {
    ws, sections := TwoReads(id, t);
    DenialStep(id, t);
    Extend(ws, sections, Write(0, t, t));
    ws, sections := ws + [DenialWritten(id, t)], sections + [Write(0, t, t)];
    ApprovalStep(id, t);
    Extend(ws, sections, Write(1, t, t));
    ws, sections := ws + [ApprovalWritten(id, t)], sections + [Write(1, t, t)];
    OverwritesSeen(id, t);
  }
}
