/**
 Appending to the audit log takes two steps and no lock: a thread reads the last hash, and later writes its event at
 the end of the file. Steps of different threads interleave.
 */
module AuditInterleaving {
  import opened Prelude
  import opened Redaction
  import opened Audit

  type Thread = nat

  /** An append between its two steps: the hash it read, and how many events there were. */
  datatype Held = Held(previous: Json, at: nat)

  datatype World = World(log: seq<Event>, held: map<Thread, Held>)

  const START := World([], map[])

  datatype Step = ReadLast(thread: Thread) | WriteEvent(thread: Thread, call: Call)

  /** Callers leave the link and the seal alone. */
  predicate Enabled(w: World, s: Step) {
    match s
    case ReadLast(t) => t !in w.held && LastHash(w.log).Some?
    case WriteEvent(t, call) => t in w.held && "event_hash" !in call.fields && "previous_hash" !in call.fields
  }

  function NewEvent(previous: Json, c: Call, rules: Rules, hash: Digest): Event {
    Sealed(Redacted(previous, c.timestamp, c.eventType, c.fields, rules), hash)
  }

  function Next(w: World, s: Step, rules: Rules, hash: Digest): World
    requires Enabled(w, s)
  {
    match s
    case ReadLast(t) => w.(held := w.held[t := Held(LastHash(w.log).value, |w.log|)])
    case WriteEvent(t, call) => World(w.log + [NewEvent(w.held[t].previous, call, rules, hash)], w.held - {t})
  }

  /** A write adds one event, which logs what the call was given and the hash that its thread read. */
  lemma WriteLogs(w: World, s: Step, rules: Rules, hash: Digest)
    requires Enabled(w, s) && s.WriteEvent?
    ensures var v := Next(w, s, rules, hash);
            && |v.log| == |w.log| + 1 && v.log[..|w.log|] == w.log && v.held == w.held - {s.thread}
            && Logs(v.log[|w.log|], w.held[s.thread].previous, s.call.timestamp, s.call.eventType, s.call.fields, rules, hash)
  {
    SealedLogs(w.held[s.thread].previous, s.call.timestamp, s.call.eventType, s.call.fields, rules, hash);
  }

  ghost predicate IsRun(ws: seq<World>, steps: seq<Step>, rules: Rules, hash: Digest) {
    && |ws| == |steps| + 1 && ws[0] == START
    && forall n {:trigger steps[n]} :: 0 <= n < |steps| ==> Enabled(ws[n], steps[n]) && ws[n + 1] == Next(ws[n], steps[n], rules, hash)
  }

  ghost predicate Sound(rules: Rules, hash: Digest) {
    LeavesHashesAlone(rules, hash) && IsInjective(hash) && AvoidsGenesis(hash)
  }

  // ---------------------------------------------------------------- what a thread holds

  /** Genesis or the digest of some event. */
  ghost predicate IsHash(v: Json, hash: Digest) {
    v == Str(GENESIS) || exists e :: v == Str(hash(e))
  }

  ghost predicate EndsInHash(log: seq<Event>, hash: Digest) {
    LastHash(log).Some? && IsHash(LastHash(log).value, hash)
  }

  /** What the thread read is the last hash of the log as it then was. */
  ghost predicate HeldWell(log: seq<Event>, h: Held, hash: Digest) {
    h.at <= |log| && LastHash(log[..h.at]) == Some(h.previous) && IsHash(h.previous, hash)
  }

  ghost predicate Inv(w: World, hash: Digest) {
    EndsInHash(w.log, hash) && forall t :: t in w.held ==> HeldWell(w.log, w.held[t], hash)
  }

  lemma StillHeld(log: seq<Event>, e: Event, h: Held, hash: Digest)
    requires HeldWell(log, h, hash)
    ensures HeldWell(log + [e], h, hash)
  {
    assert (log + [e])[..h.at] == log[..h.at];
  }

  lemma StepKeeps(w: World, s: Step, rules: Rules, hash: Digest)
    requires Inv(w, hash) && Enabled(w, s)
    ensures Inv(Next(w, s, rules, hash), hash)
  {
    if s.ReadLast? {
      assert w.log[..|w.log|] == w.log;
    } else {
      var body := Redacted(w.held[s.thread].previous, s.call.timestamp, s.call.eventType, s.call.fields, rules);
      SealedBody(body, hash);
      forall t | t in w.held ensures HeldWell(w.log + [Sealed(body, hash)], w.held[t], hash) {
        StillHeld(w.log, Sealed(body, hash), w.held[t], hash);
      }
    }
  }

  lemma {:induction false} InvAlong(ws: seq<World>, steps: seq<Step>, rules: Rules, hash: Digest, n: nat)
    requires IsRun(ws, steps, rules, hash) && n < |ws|
    ensures Inv(ws[n], hash)
  {
    if n > 0 {
      InvAlong(ws, steps, rules, hash, n - 1);
      StepKeeps(ws[n - 1], steps[n - 1], rules, hash);
    }
  }

  // ---------------------------------------------------------------- when the log verifies

  lemma HashUnredacted(v: Json, rules: Rules, hash: Digest)
    requires LeavesHashesAlone(rules, hash) && IsHash(v, hash)
    ensures Redact(v, rules) == v
  {}

  /** An event continues a verifying log exactly when it names that log's last hash. */
  lemma LinkExactly(log: seq<Event>, previous: Json, c: Call, rules: Rules, hash: Digest)
    requires Verifies(log, hash) && Sound(rules, hash) && IsHash(previous, hash) && LastHash(log).Some?
    requires "event_hash" !in c.fields && "previous_hash" !in c.fields
    ensures Verifies(log + [NewEvent(previous, c, rules, hash)], hash) <==> LastHash(log) == Some(previous)
  {
    var body := Redacted(previous, c.timestamp, c.eventType, c.fields, rules);
    var longer, n := log + [Sealed(body, hash)], |log|;
    StoredLink(previous, c.timestamp, c.eventType, c.fields, rules);
    SealedBody(body, hash);
    HashUnredacted(previous, rules, hash);
    assert longer[..n] == log;
    assert Linked(longer, n, hash) <==> LastHash(log) == Some(previous);
    if Linked(longer, n, hash) {
      forall i | 0 <= i < |longer| ensures Linked(longer, i, hash) {
        if i < n {
          assert Linked(log, i, hash) && longer[..i] == log[..i];
        }
      }
    }
  }

  /** In a verifying log, what was read long ago is still the last hash exactly when nothing was written since. */
  lemma HeldIsLastExactly(log: seq<Event>, h: Held, hash: Digest)
    requires Verifies(log, hash) && HeldWell(log, h, hash) && IsInjective(hash) && AvoidsGenesis(hash)
    ensures LastHash(log) == Some(h.previous) <==> h.at == |log|
  {
    assert log[..|log|] == log;
    if LastHash(log) == Some(h.previous) {
      PrefixVerifies(log, h.at, hash);
      LastHashDetermines(log[..h.at], log, hash);
    }
  }

  /** The step writes although another event was written since the thread read. */
  predicate WritesLate(w: World, s: Step) {
    s.WriteEvent? && s.thread in w.held && w.held[s.thread].at != |w.log|
  }

  lemma StepVerifies(w: World, s: Step, rules: Rules, hash: Digest, v: World)
    requires Inv(w, hash) && Enabled(w, s) && Sound(rules, hash) && v == Next(w, s, rules, hash)
    ensures Verifies(v.log, hash) <==> Verifies(w.log, hash) && !WritesLate(w, s)
  {
    assert v.log[..|w.log|] == w.log;
    if Verifies(v.log, hash) {
      PrefixVerifies(v.log, |w.log|, hash);
    }
    if s.WriteEvent? && Verifies(w.log, hash) {
      HeldIsLastExactly(w.log, w.held[s.thread], hash);
      LinkExactly(w.log, w.held[s.thread].previous, s.call, rules, hash);
    }
  }

  /** None of the first n steps writes late. */
  predicate NeverLate(ws: seq<World>, steps: seq<Step>, n: nat)
    requires n <= |steps| && n <= |ws|
  {
    n == 0 || (NeverLate(ws, steps, n - 1) && !WritesLate(ws[n - 1], steps[n - 1]))
  }

  lemma {:induction false} NeverLateMeans(ws: seq<World>, steps: seq<Step>, n: nat)
    requires n <= |steps| && n <= |ws|
    ensures NeverLate(ws, steps, n) <==> forall k :: 0 <= k < n ==> !WritesLate(ws[k], steps[k])
  {
    if n > 0 {
      NeverLateMeans(ws, steps, n - 1);
    }
  }

  /**
   Under any interleaving, the log verifies if and only if no event was written over a read that another write had
   made stale: between each thread's read of the last hash and its own write, nothing else was written.
   */
  lemma {:induction false} VerifiesExactly(ws: seq<World>, steps: seq<Step>, rules: Rules, hash: Digest, n: nat)
    requires IsRun(ws, steps, rules, hash) && Sound(rules, hash) && n < |ws|
    ensures Verifies(ws[n].log, hash) <==> NeverLate(ws, steps, n)
  {
    if n > 0 {
      VerifiesExactly(ws, steps, rules, hash, n - 1);
      InvAlong(ws, steps, rules, hash, n - 1);
      StepVerifies(ws[n - 1], steps[n - 1], rules, hash, ws[n]);
    }
  }

  /** It does break: two threads read the same last hash, and the second to write forks the chain. */
  lemma ForkedChain(c: Call, rules: Rules, hash: Digest) returns (ws: seq<World>, steps: seq<Step>)
    requires Sound(rules, hash) && "event_hash" !in c.fields && "previous_hash" !in c.fields
    ensures IsRun(ws, steps, rules, hash) && |steps| == 4 && |ws[4].log| == 2 && !Verifies(ws[4].log, hash)
  {
    var w1 := Next(START, ReadLast(0), rules, hash);
    var w2 := Next(w1, ReadLast(1), rules, hash);
    var w3 := Next(w2, WriteEvent(0, c), rules, hash);
    var w4 := Next(w3, WriteEvent(1, c), rules, hash);
    ws, steps := [START, w1, w2, w3, w4], [ReadLast(0), ReadLast(1), WriteEvent(0, c), WriteEvent(1, c)];
    VerifiesExactly(ws, steps, rules, hash, 4);
    NeverLateMeans(ws, steps, 4);
    assert WritesLate(ws[3], steps[3]);
  }
}
