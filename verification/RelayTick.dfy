/**
 One whole tick of the browser process, as a method on the two directories, and the proof that the steps of the
 relay, taken without interruption, amount to the same.
 */
module RelayTick {
  import opened Prelude
  import opened EventNames
  import opened Relay

  /** The payloads of the named files, in that order. */
  function Payloads(names: seq<string>, inputs: map<string, Payload>): seq<Payload>
    requires forall f :: f in names ==> f in inputs
  {
    if names == [] then [] else [inputs[names[0]]] + Payloads(names[1..], inputs)
  }

  lemma {:induction false} PayloadsSame(names: seq<string>, inputs: map<string, Payload>, fewer: map<string, Payload>)
    requires forall g :: g in names ==> g in inputs && g in fewer && fewer[g] == inputs[g]
    ensures Payloads(names, fewer) == Payloads(names, inputs)
  {
    if names != [] {
      PayloadsSame(names[1..], inputs, fewer);
    }
  }

  lemma SnocCons(a: seq<Payload>, x: Payload, b: seq<Payload>)
    ensures a + ([x] + b) == a + [x] + b
  {}

  /** The pending files that cannot be unlinked. */
  function StuckOf<T>(inputs: map<string, T>, stuck: set<string>): map<string, T> {
    map f | f in inputs && f in stuck :: inputs[f]
  }

  /** The files that stay: those not listed, and those that cannot be unlinked. */
  function Staying<T>(inputs: map<string, T>, names: seq<string>, stuck: set<string>): map<string, T> {
    map f | f in inputs && (f !in names || f in stuck) :: inputs[f]
  }

  /** Midway through a listing: what has been read and what is still to read make up the whole, and so do the files. */
  ghost predicate Draining(names: seq<string>, inputs: map<string, Payload>, stuck: set<string>, events: seq<Payload>,
                           all: seq<Payload>, end: map<string, Payload>) {
    && IsSorted(names)
    && (forall f :: f in names ==> f in inputs)
    && events + Payloads(names, inputs) == all && Staying(inputs, names, stuck) == end
  }

  function Unlinked<T>(inputs: map<string, T>, f: string, stuck: set<string>): map<string, T> {
    if f in stuck then inputs else inputs - {f}
  }

  lemma StayingStep<T>(inputs: map<string, T>, names: seq<string>, stuck: set<string>)
    requires names != [] && names[0] !in names[1..]
    ensures Staying(Unlinked(inputs, names[0], stuck), names[1..], stuck) == Staying(inputs, names, stuck)
  {
    assert forall g :: g in names <==> g == names[0] || g in names[1..];
  }

  lemma DrainStep(names: seq<string>, inputs: map<string, Payload>, stuck: set<string>, events: seq<Payload>,
                  all: seq<Payload>, end: map<string, Payload>)
    requires Draining(names, inputs, stuck, events, all, end) && names != []
    ensures Draining(names[1..], Unlinked(inputs, names[0], stuck), stuck, events + [inputs[names[0]]], all, end)
  {
    var f, rest := names[0], names[1..];
    SortedHead(names);
    StayingStep(inputs, names, stuck);
    PayloadsSame(rest, inputs, Unlinked(inputs, f, stuck));
    SnocCons(events, inputs[f], Payloads(rest, inputs));
  }

  // ---------------------------------------------------------------- what becomes of the events taken

  /** What decides about an event besides its request: whether it parses, and whether the browser accepts it. */
  datatype Browser = Browser(wellFormed: Payload -> bool, succeeds: Payload -> bool)

  predicate Admitted(p: Payload, inControl: set<string>, b: Browser) {
    b.wellFormed(p) && p.request in inControl
  }

  /** The events that reach the browser, in order. */
  function Reached(events: seq<Payload>, inControl: set<string>, b: Browser): seq<Payload> {
    if events == [] then []
    else (if Admitted(events[0], inControl, b) then [events[0]] else []) + Reached(events[1..], inControl, b)
  }

  function ResultFor(p: Payload, inControl: set<string>, b: Browser, now: real): Result {
    Result(Admitted(p, inControl, b) && b.succeeds(p), now)
  }

  /** The results on file once every event has been answered in turn. */
  function Answered(results: map<string, Result>, events: seq<Payload>, inControl: set<string>, b: Browser,
                    now: real): map<string, Result>
    decreases |events|
  {
    if events == [] then results
    else Answered(results[events[0].id := ResultFor(events[0], inControl, b, now)], events[1..], inControl, b, now)
  }

  /** No answer to anything else has changed. */
  lemma {:induction false} AnsweredOthers(results: map<string, Result>, events: seq<Payload>, inControl: set<string>,
                                          b: Browser, now: real, id: string)
    requires forall i :: 0 <= i < |events| ==> events[i].id != id
    ensures var r := Answered(results, events, inControl, b, now);
            (id in r <==> id in results) && (id in r ==> r[id] == results[id])
    decreases |events|
  {
    if events != [] {
      AnsweredOthers(results[events[0].id := ResultFor(events[0], inControl, b, now)], events[1..], inControl, b, now, id);
    }
  }

  /** Every event has its own answer on file unless a later one carries the same id, which distinct ids exclude. */
  lemma {:induction false} AnsweredOwn(results: map<string, Result>, events: seq<Payload>, inControl: set<string>,
                                       b: Browser, now: real, i: nat)
    requires i < |events| && forall j :: i < j < |events| ==> events[j].id != events[i].id
    ensures var r := Answered(results, events, inControl, b, now);
            events[i].id in r && r[events[i].id] == ResultFor(events[i], inControl, b, now)
    decreases |events|
  {
    var first := results[events[0].id := ResultFor(events[0], inControl, b, now)];
    if i > 0 {
      AnsweredOwn(first, events[1..], inControl, b, now, i - 1);
    } else {
      AnsweredOthers(first, events[1..], inControl, b, now, events[0].id);
    }
  }

  /** The results that are not stale, or that cannot be unlinked. */
  function Kept(results: map<string, Result>, stuck: set<string>, now: real): map<string, Result> {
    map id | id in results && (id in stuck || !TooOld(results[id], now)) :: results[id]
  }

  /** What is at most thirty seconds old stays as it is; what is older goes if it can. */
  lemma KeptExactly(results: map<string, Result>, stuck: set<string>, now: real, id: string)
    ensures id in Kept(results, stuck, now) <==> id in results && (now - results[id].appliedAt <= 30.0 || id in stuck)
    ensures id in Kept(results, stuck, now) ==> Kept(results, stuck, now)[id] == results[id]
  {}

  /** The payloads come in the order of the names. */
  lemma {:induction false} PayloadsAt(names: seq<string>, inputs: map<string, Payload>, i: nat)
    requires (forall f :: f in names ==> f in inputs) && i < |names|
    ensures |Payloads(names, inputs)| == |names| && Payloads(names, inputs)[i] == inputs[names[i]]
  {
    if |names| > 1 {
      PayloadsAt(names[1..], inputs, if i > 0 then i - 1 else 0);
    }
  }

  /** Exactly the events that parse and whose request is in user control reach the browser. */
  lemma {:induction false} ReachedExactly(events: seq<Payload>, inControl: set<string>, b: Browser, p: Payload)
    ensures p in Reached(events, inControl, b) <==> p in events && b.wellFormed(p) && p.request in inControl
  {
    if events != [] {
      ReachedExactly(events[1..], inControl, b, p);
    }
  }

  // ---------------------------------------------------------------- the two directories

  class Directory {
    var inputs: map<string, Payload>
    var results: map<string, Result>

    constructor ()
      ensures inputs == map[] && results == map[]
    {
      inputs, results := map[], map[];
    }

    /** Reads every pending file in name order, and removes those that can be unlinked. */
    method ConsumeInputEvents(stuck: set<string>) returns (events: seq<Payload>)
      modifies this
      ensures results == old(results)
      ensures inputs == StuckOf(old(inputs), stuck)
      ensures events == Payloads(Sorted(old(inputs).Keys), old(inputs))
    {
      var names := Sorted(inputs.Keys);
      ghost var all, end := Payloads(names, inputs), Staying(inputs, names, stuck);
      events := [];
      while names != []
        invariant results == old(results)
        invariant Draining(names, inputs, stuck, events, all, end)
        decreases |names|
      {
        DrainStep(names, inputs, stuck, events, all, end);
        events := events + [inputs[names[0]]];
        if names[0] !in stuck {
          inputs := inputs - {names[0]};
        }
        names := names[1..];
      }
      assert inputs == Staying(inputs, names, stuck);
    }

    /** A fresh result, removed if the reader consumes it; a stale one is removed and not returned. */
    method ReadInputEventResult(id: string, consume: bool, unlinked: bool, now: real) returns (r: Option<Result>)
      modifies this
      ensures inputs == old(inputs)
      ensures r.Some? <==> id in old(results) && now - old(results)[id].appliedAt <= 30.0
      ensures r.Some? ==> r.value == old(results)[id]
      ensures results == if id in old(results) && unlinked && (consume || now - old(results)[id].appliedAt > 30.0)
                         then old(results) - {id} else old(results)
    {
      if id !in results {
        return None;
      }
      var found := results[id];
      if now - found.appliedAt > RESULT_MAX_AGE {
        if unlinked {
          results := results - {id};
        }
        return None;
      }
      if consume && unlinked {
        results := results - {id};
      }
      r := Some(found);
    }

    /** Removes the stale results one file at a time, as far as they can be unlinked. */
    method CleanupInputEventResults(stuck: set<string>, now: real)
      modifies this
      ensures inputs == old(inputs)
      ensures results == Kept(old(results), stuck, now)
      ensures forall id :: id in results <==> id in old(results) && (now - old(results)[id].appliedAt <= 30.0 || id in stuck)
      ensures forall id :: id in results ==> results[id] == old(results)[id]
    {
      var todo := results.Keys;
      while todo != {}
        invariant inputs == old(inputs) && todo <= results.Keys <= old(results).Keys
        invariant results == map id | id in old(results)
                  && (id in todo || id in stuck || !TooOld(old(results)[id], now)) :: old(results)[id]
        decreases todo
      {
        var id :| id in todo;
        if now - results[id].appliedAt > RESULT_MAX_AGE && id !in stuck {
          results := results - {id};
        }
        todo := todo - {id};
      }
    }

    /**
     One whole tick with nothing in between: stale results go, every pending event is taken, those admitted
     reach the browser in name order, and each is answered. A file that cannot be unlinked stays.
     */
    method PublishTick(stuck: set<string>, stuckResults: set<string>, inControl: set<string>, b: Browser, now: real)
      returns (events: seq<Payload>, reached: seq<Payload>)
      modifies this
      ensures inputs == StuckOf(old(inputs), stuck)
      ensures events == Payloads(Sorted(old(inputs).Keys), old(inputs))
      ensures reached == Reached(events, inControl, b)
      ensures results == Answered(Kept(old(results), stuckResults, now), events, inControl, b, now)
    {
      CleanupInputEventResults(stuckResults, now);
      events := ConsumeInputEvents(stuck);
      reached := [];
      ghost var kept, staying := results, inputs;
      for n := 0 to |events|
        invariant inputs == staying
        invariant reached + Reached(events[n..], inControl, b) == Reached(events, inControl, b)
        invariant Answered(results, events[n..], inControl, b, now) == Answered(kept, events, inControl, b, now)
      {
        var p := events[n];
        assert events[n..][0] == p && events[n..][1..] == events[n + 1..];
        var applied := false;
        if b.wellFormed(p) && p.request in inControl {
          reached := reached + [p];
          applied := b.succeeds(p);
        }
        results := results[p.id := Result(applied, now)];
      }
    }
  }

  // ---------------------------------------------------------------- taking without interruption

  function Contents(inputs: map<string, Filed>): map<string, Payload> {
    map f | f in inputs :: inputs[f].event
  }

  function TakeOne(w: World, stuck: set<string>): World
    requires Enabled(w, ReadFile(true))
  {
    Next(Next(w, ReadFile(true)), Unlink(w.phase.todo[0] !in stuck))
  }

  /** Taking until the listing is exhausted. */
  ghost function TakeAll(w: World, stuck: set<string>): (v: World)
    requires w.phase.Taking? && w.phase.hand.Empty?
    ensures v.phase.Applying? && v.phase.stage.ToCheck?
    decreases |w.phase.todo|
  {
    if w.phase.todo == [] then Next(w, EndTaking) else TakeAll(TakeOne(w, stuck), stuck)
  }

  /** Everything but the input files, the tick and the record of consumption is as before. */
  ghost predicate OnlyTook(w: World, v: World) {
    v == w.(inbox := w.inbox.(inputs := v.inbox.inputs, consumed := v.inbox.consumed, failed := v.inbox.failed,
        left := v.inbox.left), phase := v.phase)
  }

  lemma TakeOneEffect(w: World, stuck: set<string>, v: World)
    requires Enabled(w, ReadFile(true)) && w.phase.todo[0] in w.inbox.inputs && v == TakeOne(w, stuck)
    ensures OnlyTook(w, v) && v.inbox.inputs == Unlinked(w.inbox.inputs, w.phase.todo[0], stuck)
    ensures v.phase == w.phase.(todo := w.phase.todo[1..], got := w.phase.got + [w.inbox.inputs[w.phase.todo[0]].event])
  {}

  /** An uninterrupted tick holds exactly the payloads of the files it listed, in the order of their names. */
  lemma {:induction false} TakeAllGets(w: World, stuck: set<string>, v: World)
    requires w.phase.Taking? && w.phase.hand.Empty? && IsSorted(w.phase.todo) && v == TakeAll(w, stuck)
    requires forall f :: f in w.phase.todo ==> f in w.inbox.inputs
    ensures OnlyTook(w, v) && v.inbox.inputs == Staying(w.inbox.inputs, w.phase.todo, stuck)
    ensures v.phase == Applying(w.phase.got + Payloads(w.phase.todo, Contents(w.inbox.inputs)), ToCheck)
    decreases |w.phase.todo|
  {
    var names, got := w.phase.todo, w.phase.got;
    if names == [] {
      assert Staying(w.inbox.inputs, names, stuck) == w.inbox.inputs;
    } else {
      var u := TakeOne(w, stuck);
      TakeOneEffect(w, stuck, u);
      SortedHead(names);
      StayingStep(w.inbox.inputs, names, stuck);
      PayloadsSame(names[1..], Contents(w.inbox.inputs), Contents(u.inbox.inputs));
      TakeAllGets(u, stuck, v);
      SnocCons(got, w.inbox.inputs[names[0]].event, Payloads(names[1..], Contents(w.inbox.inputs)));
    }
  }

  // ---------------------------------------------------------------- applying without interruption

  /** The first event held: checked, driven if admitted, and answered. */
  function ApplyOne(w: World, b: Browser): World
    requires w.phase.Applying? && w.phase.left != [] && w.phase.stage.ToCheck?
  {
    var p := w.phase.left[0];
    var u := Next(w, Check(b.wellFormed(p)));
    Next(if u.phase.stage.ToDrive? then Next(u, Drive(b.succeeds(p))) else u, Answer)
  }

  ghost function ApplyAll(w: World, b: Browser): World
    requires w.phase.Applying? && w.phase.stage.ToCheck?
    decreases |w.phase.left|
  {
    if w.phase.left == [] then Next(w, EndTick) else ApplyAll(ApplyOne(w, b), b)
  }

  /** These events, and no others, have reached the browser, in this order. */
  ghost predicate HasReached(w: World, events: seq<Payload>) {
    && |events| == |w.outbox.delivered|
    && forall i :: 0 <= i < |events| ==>
         w.outbox.delivered[i] < |w.inbox.consumed| && events[i] == w.inbox.consumed[w.outbox.delivered[i]].event
  }

  ghost predicate OnlyApplied(w: World, v: World) {
    v == w.(outbox := w.outbox.(results := v.outbox.results, resolved := v.outbox.resolved, serials := v.outbox.serials,
        delivered := v.outbox.delivered), phase := v.phase)
  }

  lemma ApplyOneEffect(w: World, b: Browser, v: World)
    requires w.phase.Applying? && w.phase.left != [] && w.phase.stage.ToCheck? && v == ApplyOne(w, b)
    ensures OnlyApplied(w, v) && v.phase == Applying(w.phase.left[1..], ToCheck)
    ensures v.outbox.resolved == w.outbox.resolved + [w.phase.left[0].id]
    ensures v.outbox.results == w.outbox.results[w.phase.left[0].id := ResultFor(w.phase.left[0], w.inControl, b, w.clock)]
    ensures v.outbox.delivered == if Admitted(w.phase.left[0], w.inControl, b)
            then w.outbox.delivered + [|w.outbox.resolved|] else w.outbox.delivered
  {}

  lemma ReachOne(w: World, b: Browser, v: World, before: seq<Payload>)
    requires w.phase.Applying? && w.phase.left != [] && w.phase.stage.ToCheck? && v == ApplyOne(w, b)
    requires IsTail(w.phase.left, w.inbox.consumed, |w.outbox.resolved|) && HasReached(w, before)
    ensures IsTail(v.phase.left, v.inbox.consumed, |v.outbox.resolved|)
    ensures HasReached(v, before + if Admitted(w.phase.left[0], w.inControl, b) then [w.phase.left[0]] else [])
  {
    ApplyOneEffect(w, b, v);
    var n := |w.outbox.resolved|;
    assert w.phase.left[0] == w.inbox.consumed[n + 0].event;
    forall k | 0 <= k < |v.phase.left| ensures v.phase.left[k] == v.inbox.consumed[n + 1 + k].event {
      assert v.phase.left[k] == w.phase.left[k + 1] == w.inbox.consumed[n + (k + 1)].event;
    }
  }

  lemma JoinReached(before: seq<Payload>, events: seq<Payload>, inControl: set<string>, b: Browser)
    requires events != []
    ensures before + Reached(events, inControl, b)
         == before + (if Admitted(events[0], inControl, b) then [events[0]] else []) + Reached(events[1..], inControl, b)
  {}

  /** The held events admitted reach the browser in order, and all are answered. */
  lemma {:induction false} ApplyAllReaches(w: World, b: Browser, v: World, before: seq<Payload>)
    requires w.phase.Applying? && w.phase.stage.ToCheck? && v == ApplyAll(w, b)
    requires IsTail(w.phase.left, w.inbox.consumed, |w.outbox.resolved|) && HasReached(w, before)
    ensures OnlyApplied(w, v) && v.phase.Idle?
    ensures v.outbox.results == Answered(w.outbox.results, w.phase.left, w.inControl, b, w.clock)
    ensures HasReached(v, before + Reached(w.phase.left, w.inControl, b))
    decreases |w.phase.left|
  {
    if w.phase.left == [] {
      assert before + [] == before;
    } else {
      var u := ApplyOne(w, b);
      ApplyOneEffect(w, b, u);
      ReachOne(w, b, u, before);
      var longer := before + if Admitted(w.phase.left[0], w.inControl, b) then [w.phase.left[0]] else [];
      ApplyAllReaches(u, b, v, longer);
      JoinReached(before, w.phase.left, w.inControl, b);
    }
  }

  // ---------------------------------------------------------------- the tick as a path of steps

  predicate OfTick(s: Step) {
    || s.Discard? || s.BeginTick? || s.ReadFile? || s.Unlink? || s.EndTaking?
    || s.Check? || s.Drive? || s.Answer? || s.EndTick?
  }

  /** A path of tick steps, with nothing of anyone else's in between, from u to v. */
  ghost predicate Leads(ws: seq<World>, steps: seq<Step>, u: World, v: World) {
    && IsPath(ws, steps) && ws[0] == u && ws[|steps|] == v
    && forall n :: 0 <= n < |steps| ==> OfTick(steps[n])
  }

  lemma Prepend(s: Step, ws: seq<World>, steps: seq<Step>, u: World, v: World)
    requires Enabled(u, s) && OfTick(s) && Leads(ws, steps, Next(u, s), v)
    ensures Leads([u] + ws, [s] + steps, u, v)
  {
    var ws', steps' := [u] + ws, [s] + steps;
    forall n | 0 <= n < |steps'| ensures OfTick(steps'[n]) && Enabled(ws'[n], steps'[n]) && ws'[n + 1] == Next(ws'[n], steps'[n]) {
      if n > 0 {
        assert steps'[n] == steps[n - 1] && ws'[n] == ws[n - 1] && ws'[n + 1] == ws[n - 1 + 1];
      }
    }
  }

  lemma {:induction false} ApplyPath(w: World, b: Browser) returns (ws: seq<World>, steps: seq<Step>)
    requires w.phase.Applying? && w.phase.stage.ToCheck?
    ensures Leads(ws, steps, w, ApplyAll(w, b))
    decreases |w.phase.left|
  {
    var end := ApplyAll(w, b);
    if w.phase.left == [] {
      ws, steps := [w, end], [EndTick];
    } else {
      ws, steps := ApplyPath(ApplyOne(w, b), b);
      var p := w.phase.left[0];
      var u := Next(w, Check(b.wellFormed(p)));
      var d := if u.phase.stage.ToDrive? then Next(u, Drive(b.succeeds(p))) else u;
      Prepend(Answer, ws, steps, d, end);
      ws, steps := [d] + ws, [Answer] + steps;
      if u.phase.stage.ToDrive? {
        Prepend(Drive(b.succeeds(p)), ws, steps, u, end);
        ws, steps := [u] + ws, [Drive(b.succeeds(p))] + steps;
      }
      Prepend(Check(b.wellFormed(p)), ws, steps, w, end);
      ws, steps := [w] + ws, [Check(b.wellFormed(p))] + steps;
    }
  }

  lemma {:induction false} TakePath(w: World, stuck: set<string>, b: Browser) returns (ws: seq<World>, steps: seq<Step>)
    requires w.phase.Taking? && w.phase.hand.Empty?
    ensures Leads(ws, steps, w, ApplyAll(TakeAll(w, stuck), b))
    decreases |w.phase.todo|
  {
    var end := ApplyAll(TakeAll(w, stuck), b);
    if w.phase.todo == [] {
      ws, steps := ApplyPath(Next(w, EndTaking), b);
      Prepend(EndTaking, ws, steps, w, end);
      ws, steps := [w] + ws, [EndTaking] + steps;
    } else {
      ws, steps := TakePath(TakeOne(w, stuck), stuck, b);
      var u, s := Next(w, ReadFile(true)), Unlink(w.phase.todo[0] !in stuck);
      Prepend(s, ws, steps, u, end);
      ws, steps := [u] + ws, [s] + steps;
      Prepend(ReadFile(true), ws, steps, w, end);
      ws, steps := [w] + ws, [ReadFile(true)] + steps;
    }
  }

  /** A tick with nothing in between, of which the files in `stuck` cannot be unlinked. */
  ghost function Tick(w: World, stuck: set<string>, b: Browser): World
    requires w.phase.Idle?
  {
    ApplyAll(TakeAll(Next(w, BeginTick), stuck), b)
  }

  lemma TickPath(w: World, stuck: set<string>, b: Browser) returns (ws: seq<World>, steps: seq<Step>)
    requires w.phase.Idle?
    ensures Leads(ws, steps, w, Tick(w, stuck, b))
  {
    ws, steps := TakePath(Next(w, BeginTick), stuck, b);
    Prepend(BeginTick, ws, steps, w, Tick(w, stuck, b));
    ws, steps := [w] + ws, [BeginTick] + steps;
  }

  /** The world without its stale results, as far as they can be unlinked. */
  function Cleaned(w: World, stuck: set<string>): World {
    w.(outbox := w.outbox.(results := Kept(w.outbox.results, stuck, w.clock)))
  }

  /** The stale results can be discarded one by one before the listing. */
  lemma {:induction false} CleanPath(w: World, stuck: set<string>, stuckResults: set<string>, b: Browser)
    returns (ws: seq<World>, steps: seq<Step>)
    requires w.phase.Idle?
    ensures Leads(ws, steps, w, Tick(Cleaned(w, stuckResults), stuck, b))
    decreases |w.outbox.results|
  {
    if id :| id in w.outbox.results && id !in stuckResults && TooOld(w.outbox.results[id], w.clock) {
      var u := Next(w, Discard(id));
      assert Kept(u.outbox.results, stuckResults, w.clock) == Kept(w.outbox.results, stuckResults, w.clock);
      ws, steps := CleanPath(u, stuck, stuckResults, b);
      assert Cleaned(u, stuckResults) == Cleaned(w, stuckResults);
      Prepend(Discard(id), ws, steps, w, Tick(Cleaned(w, stuckResults), stuck, b));
      ws, steps := [w] + ws, [Discard(id)] + steps;
    } else {
      assert Kept(w.outbox.results, stuckResults, w.clock) == w.outbox.results;
      ws, steps := TickPath(w, stuck, b);
    }
  }

  /** Apart from what a tick is there for, nothing has changed. */
  ghost predicate OnlyTicked(w: World, v: World) {
    && v == w.(inbox := v.inbox, outbox := v.outbox)
    && v.inbox == w.inbox.(inputs := v.inbox.inputs, consumed := v.inbox.consumed, failed := v.inbox.failed, left := v.inbox.left,
                           ticks := w.inbox.ticks + 1)
    && v.outbox == w.outbox.(results := v.outbox.results, resolved := v.outbox.resolved, serials := v.outbox.serials,
                             delivered := v.outbox.delivered)
  }

  lemma StayingAll<T>(inputs: map<string, T>, names: seq<string>, stuck: set<string>)
    requires forall f :: f in names <==> f in inputs
    ensures Staying(inputs, names, stuck) == StuckOf(inputs, stuck)
  {}

  lemma ListedGets(w: World, stuck: set<string>, t: World)
    requires w.phase.Idle? && t == TakeAll(Next(w, BeginTick), stuck)
    ensures OnlyTook(w.(inbox := w.inbox.(ticks := w.inbox.ticks + 1)), t) && t.inbox.inputs == StuckOf(w.inbox.inputs, stuck)
    ensures t.phase == Applying(Payloads(Sorted(w.inbox.inputs.Keys), Contents(w.inbox.inputs)), ToCheck)
  {
    var names := Sorted(w.inbox.inputs.Keys);
    TakeAllGets(Next(w, BeginTick), stuck, t);
    StayingAll(w.inbox.inputs, names, stuck);
    assert [] + Payloads(names, Contents(w.inbox.inputs)) == Payloads(names, Contents(w.inbox.inputs));
  }

  lemma ListedKeeps(w: World, stuck: set<string>, t: World, before: seq<Payload>)
    requires Pipeline(w) && w.phase.Idle? && HasReached(w, before) && t == TakeAll(Next(w, BeginTick), stuck)
    ensures Pipeline(t) && HasReached(t, before)
  {
    var u := Next(w, BeginTick);
    BeginPipeline(w, u);
    TakeAllKeeps(u, stuck, t, before);
  }

  lemma TickFacts(w: World, stuck: set<string>, b: Browser, v: World, before: seq<Payload>)
    requires Pipeline(w) && w.phase.Idle? && HasReached(w, before) && v == Tick(w, stuck, b)
    ensures var events := Payloads(Sorted(w.inbox.inputs.Keys), Contents(w.inbox.inputs));
            && OnlyTicked(w, v)
            && v.inbox.inputs == StuckOf(w.inbox.inputs, stuck)
              && v.outbox.results == Answered(w.outbox.results, events, w.inControl, b, w.clock)
            && HasReached(v, before + Reached(events, w.inControl, b))
  {
    var t := TakeAll(Next(w, BeginTick), stuck);
    ListedGets(w, stuck, t);
    ListedKeeps(w, stuck, t, before);
    ApplyAllReaches(t, b, v, before);
  }

  lemma TakeOneKeeps(w: World, stuck: set<string>, v: World)
    requires Pipeline(w) && Enabled(w, ReadFile(true)) && v == TakeOne(w, stuck)
    ensures Pipeline(v)
  {
    var u := Next(w, ReadFile(true));
    ReadKeepsPipeline(w, true, u);
    UnlinkPipeline(u, w.phase.todo[0] !in stuck, v);
  }

  lemma TakeOneReaches(w: World, stuck: set<string>, v: World, before: seq<Payload>)
    requires Enabled(w, ReadFile(true)) && v == TakeOne(w, stuck) && HasReached(w, before)
    ensures HasReached(v, before) && v.phase.Taking? && v.phase.hand.Empty? && v.phase.todo == w.phase.todo[1..]
  {
    ReadEffect(w, true, Next(w, ReadFile(true)));
  }

  lemma {:induction false} TakeAllKeeps(w: World, stuck: set<string>, v: World, before: seq<Payload>)
    requires Pipeline(w) && w.phase.Taking? && w.phase.hand.Empty? && v == TakeAll(w, stuck) && HasReached(w, before)
    ensures Pipeline(v) && HasReached(v, before)
    decreases |w.phase.todo|
  {
    if w.phase.todo == [] {
      PhasePipeline(w, EndTaking, v);
      assert v == w.(phase := v.phase);
    } else {
      var u := TakeOne(w, stuck);
      TakeOneKeeps(w, stuck, u);
      TakeOneReaches(w, stuck, u, before);
      TakeAllKeeps(u, stuck, v, before);
    }
  }

  /**
   From any world between ticks, the steps of one tick with nothing in between lead to what `PublishTick` computes:
   no file pending but those that cannot be unlinked, every event taken in name order, the admitted ones delivered,
   each answered.
   */
  lemma TickIsPublishTick(w: World, stuck: set<string>, stuckResults: set<string>, b: Browser, before: seq<Payload>)
    returns (ws: seq<World>, steps: seq<Step>, v: World)
    requires Pipeline(w) && w.phase.Idle? && HasReached(w, before)
    ensures Leads(ws, steps, w, v) && v.phase.Idle? && v.inbox.inputs == StuckOf(w.inbox.inputs, stuck)
    ensures var events := Payloads(Sorted(w.inbox.inputs.Keys), Contents(w.inbox.inputs));
            && v.outbox.results == Answered(Kept(w.outbox.results, stuckResults, w.clock), events, w.inControl, b, w.clock)
            && HasReached(v, before + Reached(events, w.inControl, b))
  {
    ws, steps := CleanPath(w, stuck, stuckResults, b);
    var clean := Cleaned(w, stuckResults);
    v := Tick(clean, stuck, b);
    TickFacts(clean, stuck, b, v, before);
  }
}
