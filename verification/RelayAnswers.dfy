/** What the relay's results say, how long they stay on file, and which readers get them, over whole runs. */
module RelayAnswers {
  import opened Prelude
  import opened Relay
  import opened RelayRuns

  // ---------------------------------------------------------------- what an answer says

  /** The browser accepted the event between m and n. */
  predicate DroveWell(steps: seq<Step>, m: nat, n: nat)
    requires n <= |steps|
  {
    exists d :: m < d < n && steps[d] == Drive(true)
  }

  predicate Drove(steps: seq<Step>, m: nat, n: nat)
    requires n <= |steps|
  {
    exists d :: m < d < n && steps[d].Drive?
  }

  /** The first event held at n, which has as yet no answer, was checked at m. */
  ghost predicate CheckedSince(ws: seq<World>, steps: seq<Step>, m: nat, n: nat) {
    && m < n < |ws| && n <= |steps| && steps[m].Check?
    && ws[m].phase.Applying? && ws[m].phase.left != []
    && ws[n].phase.Applying? && ws[n].phase.left == ws[m].phase.left
    && ws[n].outbox.resolved == ws[m].outbox.resolved
  }

  /** What passes the check: an event that parses and whose request is in user control. */
  predicate Passes(w: World, s: Step)
    requires s.Check? && w.phase.Applying? && w.phase.left != []
  {
    s.wellFormed && w.phase.left[0].request in w.inControl
  }

  /** How far it is since says whether it passed, whether it has reached the browser and whether it was accepted. */
  ghost predicate StageSays(ws: seq<World>, steps: seq<Step>, m: nat, n: nat)
    requires CheckedSince(ws, steps, m, n)
  {
    var passes, serial := Passes(ws[m], steps[m]), |ws[n].outbox.resolved|;
    match ws[n].phase.stage
    case ToCheck => false
    case ToDrive => passes && serial !in ws[n].outbox.delivered && !Drove(steps, m, n)
    case ToAnswer(applied) =>
      && (serial in ws[n].outbox.delivered <==> passes)
      && (applied <==> passes && DroveWell(steps, m, n))
  }

  lemma DroveStep(steps: seq<Step>, m: nat, n: nat)
    requires m < n < |steps|
    ensures Drove(steps, m, n + 1) <==> Drove(steps, m, n) || steps[n].Drive?
    ensures DroveWell(steps, m, n + 1) <==> DroveWell(steps, m, n) || steps[n] == Drive(true)
    ensures DroveWell(steps, m, n) ==> Drove(steps, m, n)
  {}

  /** A step that leaves an event in hand between its check and its answer. */
  lemma HeldStep(w: World, s: Step, v: World)
    requires Enabled(w, s) && v == Next(w, s) && v.phase.Applying? && !v.phase.stage.ToCheck?
    ensures w.phase.Applying? && v.phase.left == w.phase.left && v.outbox.resolved == w.outbox.resolved
    ensures s.Check? ==> w.phase.left != [] && w.phase.stage.ToCheck? && v.outbox.delivered == w.outbox.delivered
                         && v.phase.stage == if Passes(w, s) then ToDrive else ToAnswer(false)
    ensures s.Drive? ==> w.phase.stage.ToDrive? && v.outbox.delivered == w.outbox.delivered + [|w.outbox.resolved|]
                         && v.phase.stage == ToAnswer(s.succeeds)
    ensures !s.Check? && !s.Drive? ==> v.phase == w.phase && v.outbox.delivered == w.outbox.delivered
  {
    if !InTick(s) {
      OutsideTick(w, s, v);
    }
  }

  lemma HeldSays(ws: seq<World>, steps: seq<Step>, m: nat, n: nat)
    requires |ws| == |steps| + 1 && n < |steps| && CheckedSince(ws, steps, m, n) && StageSays(ws, steps, m, n)
    requires Enabled(ws[n], steps[n]) && ws[n + 1] == Next(ws[n], steps[n])
    requires ws[n + 1].phase.Applying? && !ws[n + 1].phase.stage.ToCheck? && !steps[n].Check?
    ensures CheckedSince(ws, steps, m, n + 1) && StageSays(ws, steps, m, n + 1)
  {
    HeldStep(ws[n], steps[n], ws[n + 1]);
    DroveStep(steps, m, n);
  }

  lemma {:induction false} CheckedWhenHeld(ws: seq<World>, steps: seq<Step>, n: nat) returns (m: nat)
    requires IsRun(ws, steps) && n < |ws| && ws[n].phase.Applying? && !ws[n].phase.stage.ToCheck?
    ensures CheckedSince(ws, steps, m, n) && StageSays(ws, steps, m, n)
  {
    HeldStep(ws[n - 1], steps[n - 1], ws[n]);
    if steps[n - 1].Check? {
      m := n - 1;
      InvAlong(ws, steps, m);
      FirstSays(ws, steps, m);
    } else {
      m := CheckedWhenHeld(ws, steps, n - 1);
      HeldSays(ws, steps, m, n - 1);
    }
  }

  lemma FirstSays(ws: seq<World>, steps: seq<Step>, m: nat)
    requires |ws| == |steps| + 1 && m < |steps| && steps[m].Check? && Enabled(ws[m], steps[m]) && ws[m + 1] == Next(ws[m], steps[m])
    requires Pipeline(ws[m])
    ensures CheckedSince(ws, steps, m, m + 1) && StageSays(ws, steps, m, m + 1)
  {
    HeldStep(ws[m], steps[m], ws[m + 1]);
    assert |ws[m].outbox.resolved| !in ws[m].outbox.delivered;
  }

  /**
   Every event answered was checked before. It reached the browser exactly if it parsed and its request was in user
   control at that check, and its answer says that it was applied exactly if the browser then accepted it.
   */
  lemma AnswerExactly(ws: seq<World>, steps: seq<Step>, l: nat) returns (m: nat)
    requires IsRun(ws, steps) && l < |steps| && steps[l].Answer?
    ensures CheckedSince(ws, steps, m, l)
    ensures |ws[l].outbox.resolved| in ws[l].outbox.delivered <==> steps[m].wellFormed && ws[m].phase.left[0].request in ws[m].inControl
    ensures ws[l + 1].outbox.resolved == ws[l].outbox.resolved + [ws[m].phase.left[0].id]
    ensures ws[m].phase.left[0].id in ws[l + 1].outbox.results
    ensures var result := ws[l + 1].outbox.results[ws[m].phase.left[0].id];
            && result.appliedAt == ws[l].clock
            && (result.applied <==>
                  steps[m].wellFormed && ws[m].phase.left[0].request in ws[m].inControl && DroveWell(steps, m, l))
  {
    m := CheckedWhenHeld(ws, steps, l);
  }

  // ---------------------------------------------------------------- which answer is on file

  /** The step writes this result as the answer of this number. */
  ghost predicate Answers(w: World, s: Step, id: string, serial: nat, result: Result) {
    && s.Answer? && w.phase.Applying? && w.phase.left != [] && w.phase.stage.ToAnswer?
    && w.phase.left[0].id == id && |w.outbox.resolved| == serial
    && result == Result(w.phase.stage.applied, w.clock)
  }

  /** The result under this id goes. */
  predicate Unfiles(w: World, s: Step, id: string) {
    || s.ClearContext?
    || s == Discard(id)
    || (s.Leave? && s.unlinked && s.reader in w.outbox.readers && w.outbox.readers[s.reader].id == id)
  }

  lemma OutsideResults(w: World, s: Step, v: World)
    requires Enabled(w, s) && v == Next(w, s) && !s.Answer? && !s.Leave? && !s.Discard? && !s.ClearContext?
    ensures v.outbox.results == w.outbox.results && v.outbox.serials == w.outbox.serials
  {}

  /** What becomes of the result under an id at one step: written, gone, or as it was. */
  lemma FiledExactly(w: World, s: Step, v: World, id: string)
    requires Enabled(w, s) && v == Next(w, s)
    ensures s.Answer? && w.phase.left[0].id == id ==>
              id in v.outbox.results && Answers(w, s, id, SerialOf(v.outbox.serials, id), v.outbox.results[id])
    ensures Unfiles(w, s, id) ==> id !in v.outbox.results
    ensures !(s.Answer? && w.phase.left[0].id == id) && !Unfiles(w, s, id) ==>
              && (id in v.outbox.results <==> id in w.outbox.results)
              && (id in v.outbox.results ==>
                    && v.outbox.results[id] == w.outbox.results[id]
                    && SerialOf(v.outbox.serials, id) == SerialOf(w.outbox.serials, id))
  {
    if !s.Answer? && !s.Leave? && !s.Discard? && !s.ClearContext? {
      OutsideResults(w, s, v);
    }
  }

  lemma {:induction false} AnsweredWhen(ws: seq<World>, steps: seq<Step>, n: nat, id: string) returns (l: nat)
    requires IsRun(ws, steps) && n < |ws| && id in ws[n].outbox.results
    ensures l < n && Answers(ws[l], steps[l], id, SerialOf(ws[n].outbox.serials, id), ws[n].outbox.results[id])
  {
    FiledExactly(ws[n - 1], steps[n - 1], ws[n], id);
    if steps[n - 1].Answer? && ws[n - 1].phase.left[0].id == id {
      l := n - 1;
    } else {
      l := AnsweredWhen(ws, steps, n - 1, id);
    }
  }

  /** Nobody unlinks the result under this id, nor clears the context. */
  ghost predicate LeftAlone(ws: seq<World>, steps: seq<Step>, m: nat, n: nat, id: string)
    requires n <= |steps| && n <= |ws|
  {
    forall k {:trigger steps[k]} :: m <= k < n ==>
      && !steps[k].ClearContext?
      && !(steps[k].Leave? && steps[k].unlinked && steps[k].reader in ws[k].outbox.readers && ws[k].outbox.readers[steps[k].reader].id == id)
  }

  lemma ClockStep(w: World, s: Step, v: World)
    requires Enabled(w, s) && v == Next(w, s)
    ensures w.clock <= v.clock
  {}

  lemma StaysStep(w: World, s: Step, v: World, id: string, since: real)
    requires Enabled(w, s) && v == Next(w, s) && since <= w.clock
    requires id in w.outbox.results && since <= w.outbox.results[id].appliedAt
    requires !s.ClearContext? && !(s.Leave? && s.unlinked && s.reader in w.outbox.readers && w.outbox.readers[s.reader].id == id)
    requires v.clock - since <= 30.0
    ensures id in v.outbox.results && since <= v.outbox.results[id].appliedAt && since <= v.clock
  {
    ClockStep(w, s, v);
    FiledExactly(w, s, v, id);
  }

  /**
   An answer stays on file for thirty seconds: until then there is one under this id, this or a later one, unless a
   reader unlinks it or the context is cleared.
   */
  lemma {:induction false} AnswerStays(ws: seq<World>, steps: seq<Step>, l: nat, n: nat, id: string)
    requires IsRun(ws, steps) && l < n < |ws| && steps[l].Answer? && ws[l].phase.left[0].id == id
    requires LeftAlone(ws, steps, l + 1, n, id) && ws[n].clock - ws[l].clock <= 30.0
    ensures id in ws[n].outbox.results && ws[l].clock <= ws[n].outbox.results[id].appliedAt && ws[l].clock <= ws[n].clock
  {
    if n == l + 1 {
      FiledExactly(ws[l], steps[l], ws[n], id);
    } else {
      ClockStep(ws[n - 1], steps[n - 1], ws[n]);
      AnswerStays(ws, steps, l, n - 1, id);
      StaysStep(ws[n - 1], steps[n - 1], ws[n], id, ws[l].clock);
    }
  }

  /** Only what is more than thirty seconds old is discarded. */
  lemma DiscardedIsOld(ws: seq<World>, steps: seq<Step>, n: nat) returns (l: nat)
    requires IsRun(ws, steps) && n < |steps| && steps[n].Discard?
    ensures l < n && steps[l].Answer? && ws[l].phase.left != [] && ws[l].phase.left[0].id == steps[n].id
    ensures ws[n].clock - ws[l].clock > 30.0
  {
    l := AnsweredWhen(ws, steps, n, steps[n].id);
  }

  // ---------------------------------------------------------------- who gets it

  /** The reader looked at m and found the answer given at l. */
  ghost predicate Found(ws: seq<World>, steps: seq<Step>, l: nat, m: nat, n: nat, r: nat) {
    ReadSince(ws, steps, m, n, r) && l < m && Answers(ws[l], steps[l], steps[m].id, ws[n].outbox.readers[r].serial, ws[n].outbox.readers[r].result)
  }

  /** A reader finds what is on file, and only that. */
  lemma LooksExactly(w: World, r: nat, id: string, consume: bool)
    requires Enabled(w, Look(r, id, consume))
    ensures var v := Next(w, Look(r, id, consume));
            && (r in v.outbox.readers <==> id in w.outbox.results)
            && v == w.(outbox := w.outbox.(readers := v.outbox.readers))
            && (forall q :: q != r ==> (q in v.outbox.readers <==> q in w.outbox.readers)
                                       && (q in v.outbox.readers ==> v.outbox.readers[q] == w.outbox.readers[q]))
  {}

  lemma FoundWhen(ws: seq<World>, steps: seq<Step>, n: nat, r: nat) returns (l: nat, m: nat)
    requires IsRun(ws, steps) && n < |ws| && r in ws[n].outbox.readers
    ensures Found(ws, steps, l, m, n, r)
  {
    m := ReadWhen(ws, steps, n, r);
    l := AnsweredWhen(ws, steps, m, steps[m].id);
  }

  /** What the reader gets: the answer, as it was given, and its age. */
  function Gift(w: World, now: real): Handed
    requires w.phase.Applying? && w.phase.left != [] && w.phase.stage.ToAnswer?
  {
    Handed(w.phase.left[0].id, |w.outbox.resolved|, now - w.clock, Result(w.phase.stage.applied, w.clock))
  }

  /**
   A reader that finds an answer more than thirty seconds old gets nothing and goes on to unlink it. Otherwise it gets
   the answer: at once if it does not consume it, and after trying to unlink it if it does.
   */
  lemma JudgedExactly(ws: seq<World>, steps: seq<Step>, n: nat) returns (l: nat, m: nat)
    requires IsRun(ws, steps) && n < |steps| && steps[n].Judge?
    ensures Found(ws, steps, l, m, n, steps[n].reader)
    ensures var r, age, v := steps[n].reader, ws[n].clock - ws[l].clock, ws[n + 1];
            && v.outbox.handed == ws[n].outbox.handed
            && v.outbox.shown == ws[n].outbox.shown + (if age <= 30.0 && !steps[m].consume then [Gift(ws[l], ws[n].clock)] else [])
            && (r in v.outbox.readers <==> age > 30.0 || steps[m].consume)
            && (r in v.outbox.readers ==> v.outbox.readers[r].Leaving? && (v.outbox.readers[r].age.Some? <==> age <= 30.0))
  {
    l, m := FoundWhen(ws, steps, n, steps[n].reader);
  }

  /** The reader at n has judged at k what it holds. */
  ghost predicate JudgedSince(ws: seq<World>, steps: seq<Step>, k: nat, n: nat, r: nat) {
    && k < n < |ws| && k < |steps| && steps[k] == Judge(r) && r in ws[k].outbox.readers && r in ws[n].outbox.readers
    && ws[k].outbox.readers[r].Looking?
    && IsJudged(ws[k].outbox.readers[r], ws[n].outbox.readers[r], ws[k].clock)
  }

  predicate IsJudged(looking: Reader, leaving: Reader, now: real)
    requires looking.Looking?
  {
    && leaving.Leaving? && leaving.id == looking.id && leaving.serial == looking.serial && leaving.result == looking.result
    && (leaving.age.Some? <==> now - looking.result.appliedAt <= 30.0)
    && (leaving.age.Some? ==> leaving.age.value == now - looking.result.appliedAt && looking.consume)
  }

  lemma JudgedStep(w: World, s: Step, v: World, r: nat)
    requires Enabled(w, s) && v == Next(w, s) && r in v.outbox.readers && v.outbox.readers[r].Leaving?
    ensures r in w.outbox.readers
    ensures s == Judge(r) ==> w.outbox.readers[r].Looking? && IsJudged(w.outbox.readers[r], v.outbox.readers[r], w.clock)
    ensures s != Judge(r) ==> v.outbox.readers[r] == w.outbox.readers[r]
  {
    if !ByReader(s) {
      OutsideReaders(w, s, v);
    }
  }

  lemma {:induction false} JudgedWhen(ws: seq<World>, steps: seq<Step>, n: nat, r: nat) returns (k: nat)
    requires IsRun(ws, steps) && n < |ws| && r in ws[n].outbox.readers && ws[n].outbox.readers[r].Leaving?
    ensures JudgedSince(ws, steps, k, n, r)
  {
    JudgedStep(ws[n - 1], steps[n - 1], ws[n], r);
    if steps[n - 1] == Judge(r) {
      k := n - 1;
    } else {
      k := JudgedWhen(ws, steps, n - 1, r);
    }
  }

  /**
   A reader that leaves was given the answer it found exactly if that was at most thirty seconds old when it judged
   its age, and then it is a consuming one.
   */
  lemma HandedExactly(ws: seq<World>, steps: seq<Step>, n: nat) returns (l: nat, m: nat, k: nat)
    requires IsRun(ws, steps) && n < |steps| && steps[n].Leave?
    ensures m < k < n && steps[k] == Judge(steps[n].reader) && Found(ws, steps, l, m, k, steps[n].reader)
    ensures ws[k].clock - ws[l].clock <= 30.0 ==> steps[m].consume
    ensures ws[n + 1].outbox.handed == ws[n].outbox.handed + if ws[k].clock - ws[l].clock <= 30.0 then [Gift(ws[l], ws[k].clock)] else []
  {
    k := JudgedWhen(ws, steps, n, steps[n].reader);
    l, m := FoundWhen(ws, steps, k, steps[n].reader);
  }
}
