/** The audit log: redacted events, each carrying the hash of the one before. */
module Audit {
  import opened Prelude
  import opened Redaction

  function Zeros(n: nat): (r: string)
    ensures |r| == n && forall i :: 0 <= i < n ==> r[i] == '0'
  {
    if n == 0 then "" else "0" + Zeros(n - 1)
  }

  const GENESIS: string := Zeros(64)

  type Event = map<string, Json>

  /** The digest of an event's canonical JSON text. */
  type Digest = Event -> string

  function HashOf(e: Event): Option<Json> {
    if "event_hash" in e then Some(e["event_hash"]) else None
  }

  function Body(e: Event): Event {
    e - {"event_hash"}
  }

  function Field(e: Event, key: string): Option<Json> {
    if key in e then Some(e[key]) else None
  }

  /** What the next event must name as its predecessor; None when the last event has no hash. */
  function LastHash(log: seq<Event>): Option<Json> {
    if log == [] then Some(Str(GENESIS)) else HashOf(log[|log| - 1])
  }

  /** The event as redacted: caller's fields come last and override the three standard ones. */
  function Redacted(previous: Json, timestamp: string, eventType: string, fields: Event, rules: Rules): Event {
    Redact(Obj(map["timestamp" := Num(timestamp), "event_type" := Str(eventType), "previous_hash" := previous] + fields), rules).entries
  }

  function Sealed(body: Event, hash: Digest): Event {
    body["event_hash" := Str(hash(body))]
  }

  function Append(log: seq<Event>, timestamp: string, eventType: string, fields: Event, rules: Rules, hash: Digest): Option<seq<Event>> {
    var previous := LastHash(log);
    if previous.None? then None
    else Some(log + [Sealed(Redacted(previous.value, timestamp, eventType, fields, rules), hash)])
  }

  // ---------------------------------------------------------------- what an event carries

  datatype Call = Call(timestamp: string, eventType: string, fields: Event)

  /** What an append is given to log: the caller's fields, and beside them the time, the type and the link. */
  ghost predicate IsGiven(m: Event, previous: Json, timestamp: string, eventType: string, fields: Event) {
    && m.Keys == fields.Keys + {"timestamp", "event_type", "previous_hash"}
    && (forall k :: k in fields ==> m[k] == fields[k])
    && ("timestamp" !in fields ==> m["timestamp"] == Num(timestamp))
    && ("event_type" !in fields ==> m["event_type"] == Str(eventType))
    && ("previous_hash" !in fields ==> m["previous_hash"] == previous)
  }

  /** The event logs what was given, redacted, under the hash of exactly that. */
  ghost predicate Logs(e: Event, previous: Json, timestamp: string, eventType: string, fields: Event, rules: Rules, hash: Digest) {
    exists m: Event, body: Event ::
      && IsGiven(m, previous, timestamp, eventType, fields)
      && IsRedaction(Obj(body), Obj(m), rules)
      && e == body["event_hash" := Str(hash(body))]
  }

  lemma SealedLogs(previous: Json, timestamp: string, eventType: string, fields: Event, rules: Rules, hash: Digest)
    ensures Logs(Sealed(Redacted(previous, timestamp, eventType, fields, rules), hash), previous, timestamp, eventType, fields, rules, hash)
  {
    var m := map["timestamp" := Num(timestamp), "event_type" := Str(eventType), "previous_hash" := previous] + fields;
    var body := Redacted(previous, timestamp, eventType, fields, rules);
    RedactExactly(Obj(body), Obj(m), rules);
    assert IsGiven(m, previous, timestamp, eventType, fields);
  }

  /** The event at i logs what the call was given, and the hash of the event before it. */
  ghost predicate LogsAt(log: seq<Event>, i: nat, c: Call, rules: Rules, hash: Digest) {
    && i < |log|
    && (i > 0 ==> "event_hash" in log[i - 1])
    && Logs(log[i], if i == 0 then Str(GENESIS) else log[i - 1]["event_hash"], c.timestamp, c.eventType, c.fields, rules, hash)
  }

  /** An append adds one event, which logs what it was given, and is refused only if the last event has no hash. */
  lemma AppendLogs(log: seq<Event>, c: Call, rules: Rules, hash: Digest)
    ensures var longer := Append(log, c.timestamp, c.eventType, c.fields, rules, hash);
            && (longer.None? <==> log != [] && "event_hash" !in log[|log| - 1])
            && (longer.Some? ==>
                  |longer.value| == |log| + 1 && longer.value[..|log|] == log && LogsAt(longer.value, |log|, c, rules, hash))
  {
    if LastHash(log).Some? {
      SealedLogs(LastHash(log).value, c.timestamp, c.eventType, c.fields, rules, hash);
    }
  }

  // ---------------------------------------------------------------- what verification means

  /** Event i names the hash of the event before it and carries the hash of its own body. */
  ghost predicate Linked(log: seq<Event>, i: nat, hash: Digest)
    requires i < |log|
  {
    && Field(Body(log[i]), "previous_hash") == LastHash(log[..i])
    && LastHash(log[..i]).Some?
    && HashOf(log[i]) == Some(Str(hash(Body(log[i]))))
  }

  ghost predicate Verifies(log: seq<Event>, hash: Digest) {
    forall i :: 0 <= i < |log| ==> Linked(log, i, hash)
  }

  class AuditLog {
    var events: seq<Event>

    constructor ()
      ensures events == []
    {
      events := [];
    }

    method AppendEvent(timestamp: string, eventType: string, fields: Event, rules: Rules, hash: Digest) returns (ok: bool)
      modifies this
      ensures ok == Append(old(events), timestamp, eventType, fields, rules, hash).Some?
      ensures events == if ok then Append(old(events), timestamp, eventType, fields, rules, hash).value else old(events)
    {
      var previous := if events == [] then Some(Str(GENESIS)) else HashOf(events[|events| - 1]);
      if previous.None? {
        return false;
      }
      var body := Redacted(previous.value, timestamp, eventType, fields, rules);
      events := events + [body["event_hash" := Str(hash(body))]];
      ok := true;
    }

    /** Walks the log once, carrying the previous hash. */
    method Verify(hash: Digest) returns (ok: bool)
      ensures ok <==> Verifies(events, hash)
    {
      var previous := Some(Str(GENESIS));
      for n := 0 to |events|
        invariant forall i :: 0 <= i < n ==> Linked(events, i, hash)
        invariant previous == LastHash(events[..n]) && previous.Some?
      {
        var event := events[n];
        var body := event - {"event_hash"};
        if Field(body, "previous_hash") != previous {
          assert !Linked(events, n, hash);
          return false;
        }
        if HashOf(event) != Some(Str(hash(body))) {
          assert !Linked(events, n, hash);
          return false;
        }
        assert Linked(events, n, hash);
        previous := HashOf(event);
        assert events[..n + 1][n] == event;
      }
      ok := true;
    }
  }

  // ---------------------------------------------------------------- chains

  /** Every prefix of a verifying log verifies. */
  lemma PrefixVerifies(log: seq<Event>, n: nat, hash: Digest)
    requires Verifies(log, hash) && n <= |log|
    ensures Verifies(log[..n], hash)
  {
    forall i | 0 <= i < n ensures Linked(log[..n], i, hash) {
      assert Linked(log, i, hash);
      assert log[..n][..i] == log[..i];
    }
  }

  /** The redactor leaves digests and the link key alone. */
  ghost predicate LeavesHashesAlone(rules: Rules, hash: Digest) {
    && rules.text(GENESIS) == GENESIS
    && (forall e :: rules.text(hash(e)) == hash(e))
    && !rules.secret("previous_hash") && rules.lower("previous_hash") == "previous_hash"
  }

  ghost predicate IsInjective(hash: Digest) {
    forall a, b :: hash(a) == hash(b) ==> a == b
  }

  ghost predicate AvoidsGenesis(hash: Digest) {
    forall e :: hash(e) != GENESIS
  }

  /** The link field of a new event, as it is stored. */
  lemma StoredLink(previous: Json, timestamp: string, eventType: string, fields: Event, rules: Rules)
    requires !rules.secret("previous_hash") && rules.lower("previous_hash") == "previous_hash"
    ensures var body := Redacted(previous, timestamp, eventType, fields, rules);
            && "previous_hash" in body
            && body["previous_hash"] == Redact(if "previous_hash" in fields then fields["previous_hash"] else previous, rules)
            && ("event_hash" in body <==> "event_hash" in fields)
  {}

  /** The hash a verifying log ends with: the genesis value or some digest. */
  lemma LastHashForm(log: seq<Event>, hash: Digest)
    requires Verifies(log, hash)
    ensures LastHash(log).Some?
    ensures log == [] ==> LastHash(log) == Some(Str(GENESIS))
    ensures log != [] ==> LastHash(log) == Some(Str(hash(Body(log[|log| - 1]))))
  {
    if log != [] {
      assert Linked(log, |log| - 1, hash);
    }
  }

  lemma SealedBody(body: Event, hash: Digest)
    ensures HashOf(Sealed(body, hash)) == Some(Str(hash(body)))
    ensures "event_hash" !in body ==> Body(Sealed(body, hash)) == body
    ensures "event_hash" in body ==> Body(Sealed(body, hash)) != body
  {}

  /** The fields a caller may not use: they would overwrite the link or the seal. */
  ghost predicate KeepsTheChain(previous: Json, fields: Event, rules: Rules) {
    && "event_hash" !in fields
    && ("previous_hash" in fields ==> Redact(fields["previous_hash"], rules) == previous)
  }

  /**
   Appending to a verifying log yields a verifying log exactly when the caller's fields do not include the
   seal, and do not overwrite the link with anything but itself.
   */
  lemma AppendVerifiesExactly(log: seq<Event>, timestamp: string, eventType: string, fields: Event, rules: Rules, hash: Digest)
    requires Verifies(log, hash) && LeavesHashesAlone(rules, hash) && IsInjective(hash)
    ensures Append(log, timestamp, eventType, fields, rules, hash).Some? && LastHash(log).Some?
    ensures Verifies(Append(log, timestamp, eventType, fields, rules, hash).value, hash)
            <==> KeepsTheChain(LastHash(log).value, fields, rules)
  {
    LastHashForm(log, hash);
    var previous := LastHash(log).value;
    var body := Redacted(previous, timestamp, eventType, fields, rules);
    var longer, n := log + [Sealed(body, hash)], |log|;
    StoredLink(previous, timestamp, eventType, fields, rules);
    SealedBody(body, hash);
    assert Redact(previous, rules) == previous;
    assert longer[..n] == log;
    assert Linked(longer, n, hash) <==> KeepsTheChain(previous, fields, rules);
    if Linked(longer, n, hash) {
      forall i | 0 <= i < |longer| ensures Linked(longer, i, hash) {
        if i < n {
          assert Linked(log, i, hash);
          assert longer[..i] == log[..i];
        }
      }
    }
  }

  // ---------------------------------------------------------------- runs

  function LogOf(calls: seq<Call>, rules: Rules, hash: Digest): Option<seq<Event>> {
    if calls == [] then Some([])
    else
      var earlier := LogOf(calls[..|calls| - 1], rules, hash);
      var c := calls[|calls| - 1];
      if earlier.None? then None else Append(earlier.value, c.timestamp, c.eventType, c.fields, rules, hash)
  }

  /** Every sequential run of appends whose fields leave the link and the seal alone yields a log that verifies. */
  lemma {:induction false} RunsVerify(calls: seq<Call>, rules: Rules, hash: Digest)
    requires LeavesHashesAlone(rules, hash) && IsInjective(hash)
    requires forall i :: 0 <= i < |calls| ==> "event_hash" !in calls[i].fields && "previous_hash" !in calls[i].fields
    ensures LogOf(calls, rules, hash).Some? && |LogOf(calls, rules, hash).value| == |calls|
    ensures Verifies(LogOf(calls, rules, hash).value, hash)
  {
    if calls != [] {
      var c := calls[|calls| - 1];
      RunsVerify(calls[..|calls| - 1], rules, hash);
      AppendVerifiesExactly(LogOf(calls[..|calls| - 1], rules, hash).value, c.timestamp, c.eventType, c.fields, rules, hash);
    }
  }

  lemma {:induction false} RunEvents(calls: seq<Call>, rules: Rules, hash: Digest, i: nat)
    requires LogOf(calls, rules, hash).Some? && i < |calls|
    ensures var log, c := LogOf(calls, rules, hash).value, calls[i];
            && |log| == |calls| && LastHash(log[..i]).Some?
            && log[i] == Sealed(Redacted(LastHash(log[..i]).value, c.timestamp, c.eventType, c.fields, rules), hash)
  {
    var n := |calls| - 1;
    var earlier, log := LogOf(calls[..n], rules, hash).value, LogOf(calls, rules, hash).value;
    RunLength(calls[..n], rules, hash);
    assert log[..n] == earlier;
    if i < n {
      RunEvents(calls[..n], rules, hash, i);
      assert log[i] == earlier[i] && log[..i] == earlier[..i];
    }
  }

  lemma {:induction false} RunLength(calls: seq<Call>, rules: Rules, hash: Digest)
    requires LogOf(calls, rules, hash).Some?
    ensures |LogOf(calls, rules, hash).value| == |calls|
  {
    if calls != [] {
      RunLength(calls[..|calls| - 1], rules, hash);
    }
  }

  /** Every event of a run logs what its call was given, and the hash of the event before it. */
  lemma RunLogs(calls: seq<Call>, rules: Rules, hash: Digest, i: nat)
    requires LogOf(calls, rules, hash).Some? && i < |calls|
    ensures |LogOf(calls, rules, hash).value| == |calls|
    ensures LogsAt(LogOf(calls, rules, hash).value, i, calls[i], rules, hash)
  {
    var log, c := LogOf(calls, rules, hash).value, calls[i];
    RunEvents(calls, rules, hash, i);
    SealedLogs(LastHash(log[..i]).value, c.timestamp, c.eventType, c.fields, rules, hash);
    assert i > 0 ==> log[..i][i - 1] == log[i - 1];
  }

  lemma SameEvent(a: Event, b: Event)
    requires HashOf(a) == HashOf(b) && HashOf(a).Some? && Body(a) == Body(b)
    ensures a == b
  {
    forall k | k in a ensures k in b && a[k] == b[k] {
      if k != "event_hash" {
        assert k in Body(a);
      }
    }
    forall k | k in b ensures k in a {
      if k != "event_hash" {
        assert k in Body(b);
      }
    }
  }

  /**
   The last hash pins down the whole log: two verifying logs that end in the same hash are equal, so no event
   can be changed, dropped or inserted without changing it.
   */
  lemma {:induction false} LastHashDetermines(a: seq<Event>, b: seq<Event>, hash: Digest)
    requires IsInjective(hash) && AvoidsGenesis(hash)
    requires Verifies(a, hash) && Verifies(b, hash) && LastHash(a) == LastHash(b)
    ensures a == b
    decreases |a|
  {
    LastHashForm(a, hash);
    LastHashForm(b, hash);
    if a != [] && b != [] {
      var x, y := a[|a| - 1], b[|b| - 1];
      assert Linked(a, |a| - 1, hash) && Linked(b, |b| - 1, hash);
      assert hash(Body(x)) == hash(Body(y));
      SameEvent(x, y);
      PrefixVerifies(a, |a| - 1, hash);
      PrefixVerifies(b, |b| - 1, hash);
      LastHashDetermines(a[..|a| - 1], b[..|b| - 1], hash);
      assert a == a[..|a| - 1] + [x] && b == b[..|b| - 1] + [y];
    }
  }
}
