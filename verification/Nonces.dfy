/**
 The nonce store behind signed device requests. It drops nonces once they expire, and is compared here with a
 store that keeps every acceptance for ever.
 */
module Nonces {
  import opened Prelude

  /** The timestamp header after Python's `float`: a number, an infinity, not-a-number, or unparsable. */
  datatype Timestamp = Finite(value: real) | Infinite | NotANumber | Unparsable

  /** `abs(now - ts) > skew`: comparisons with not-a-number are false. */
  predicate OutsideWindow(ts: Timestamp, now: real, skew: real)
    requires !ts.Unparsable?
  {
    match ts
    case Finite(v) => now - v > skew || v - now > skew
    case Infinite => true
    case NotANumber => false
  }

  function Key(device: string, nonce: string): string {
    device + ":" + nonce
  }

  datatype Message = Message(device: string, nonce: string, timestamp: Timestamp)

  datatype Reply = Accepted | BadTimestamp | OutsideAllowedWindow | Replayed

  /** Expiry time by key. */
  type Store = map<string, real>

  function Consume(s: Store, m: Message, now: real, skew: real): (Store, Reply) {
    if m.timestamp.Unparsable? then (s, BadTimestamp)
    else if OutsideWindow(m.timestamp, now, skew) then (s, OutsideAllowedWindow)
    else
      var key := Key(m.device, m.nonce);
      var kept := map k | k in s && s[k] > now :: s[k];
      if key in kept then (s, Replayed) else (kept[key := now + skew], Accepted)
  }

  class DeviceNonceStore {
    var nonces: Store

    constructor ()
      ensures nonces == map[]
    {
      nonces := map[];
    }

    /** Prunes, looks the key up and records it; a refused call writes nothing back. */
    method ConsumeMessage(m: Message, now: real, skew: real) returns (r: Reply)
      modifies this
      ensures (nonces, r) == Consume(old(nonces), m, now, skew)
    {
      if m.timestamp.Unparsable? {
        return BadTimestamp;
      }
      if OutsideWindow(m.timestamp, now, skew) {
        return OutsideAllowedWindow;
      }
      var live := nonces;
      var todo := nonces.Keys;
      while todo != {}
        invariant todo <= nonces.Keys && nonces == old(nonces)
        invariant live == map k | k in nonces && (k in todo || nonces[k] > now) :: nonces[k]
        decreases todo
      {
        var k :| k in todo;
        if nonces[k] <= now {
          live := live - {k};
        }
        todo := todo - {k};
      }
      assert live == map k | k in nonces && nonces[k] > now :: nonces[k];
      var key := Key(m.device, m.nonce);
      if key in live {
        return Replayed;
      }
      nonces := live[key := now + skew];
      r := Accepted;
    }
  }

  // ---------------------------------------------------------------- the store that remembers

  datatype Acceptance = Acceptance(message: Message, at: real, skew: real)

  /** Refuse exactly while some earlier acceptance of the same key has not expired. */
  ghost predicate Remembers(log: seq<Acceptance>, key: string, now: real) {
    exists i :: 0 <= i < |log| && Key(log[i].message.device, log[i].message.nonce) == key && log[i].at + log[i].skew > now
  }

  ghost function FullReply(log: seq<Acceptance>, m: Message, now: real, skew: real): Reply {
    if m.timestamp.Unparsable? then BadTimestamp
    else if OutsideWindow(m.timestamp, now, skew) then OutsideAllowedWindow
    else if Remembers(log, Key(m.device, m.nonce), now) then Replayed
    else Accepted
  }

  /** From `clock` on, a key is live in the store exactly when some acceptance in the log still is. */
  ghost predicate Similar(s: Store, log: seq<Acceptance>, clock: real) {
    forall key, t :: t >= clock ==> LiveAlike(s, log, key, t)
  }

  ghost predicate LiveAlike(s: Store, log: seq<Acceptance>, key: string, t: real) {
    (key in s && s[key] > t) <==> Remembers(log, key, t)
  }

  datatype Call = Call(message: Message, now: real, skew: real)

  /** The store and the log of acceptances side by side. */
  datatype World = World(store: Store, log: seq<Acceptance>, clock: real)

  const Start := World(map[], [], 0.0)

  predicate MayCall(w: World, c: Call) {
    w.clock <= c.now
  }

  function Advance(w: World, c: Call): World {
    var (s, r) := Consume(w.store, c.message, c.now, c.skew);
    World(s, if r.Accepted? then w.log + [Acceptance(c.message, c.now, c.skew)] else w.log, c.now)
  }

  lemma RemembersAppend(log: seq<Acceptance>, a: Acceptance, key: string, t: real)
    ensures Remembers(log + [a], key, t) <==>
              Remembers(log, key, t) || (Key(a.message.device, a.message.nonce) == key && a.at + a.skew > t)
  {
    var g := log + [a];
    if Remembers(log, key, t) {
      var i :| 0 <= i < |log| && Key(log[i].message.device, log[i].message.nonce) == key && log[i].at + log[i].skew > t;
      assert g[i] == log[i];
    }
    assert g[|log|] == a;
  }

  /** Dropping expired nonces never changes an answer. */
  lemma ReplySimilar(w: World, c: Call)
    requires Similar(w.store, w.log, w.clock) && MayCall(w, c)
    ensures Consume(w.store, c.message, c.now, c.skew).1 == FullReply(w.log, c.message, c.now, c.skew)
  {
    assert LiveAlike(w.store, w.log, Key(c.message.device, c.message.nonce), c.now);
  }

  lemma StepSimilar(w: World, c: Call)
    requires Similar(w.store, w.log, w.clock) && MayCall(w, c)
    ensures Similar(Advance(w, c).store, Advance(w, c).log, c.now)
  {
    var v := Advance(w, c);
    var mine := Key(c.message.device, c.message.nonce);
    forall key, t | t >= c.now ensures LiveAlike(v.store, v.log, key, t) {
      assert LiveAlike(w.store, w.log, key, t);
      assert LiveAlike(w.store, w.log, mine, c.now);
      if Consume(w.store, c.message, c.now, c.skew).1.Accepted? {
        RemembersAppend(w.log, Acceptance(c.message, c.now, c.skew), key, t);
      }
    }
  }

  /** Two acceptances of one key are apart by at least the skew of the first. */
  ghost predicate Apart(log: seq<Acceptance>) {
    forall i, j :: 0 <= i < j < |log|
      && Key(log[i].message.device, log[i].message.nonce) == Key(log[j].message.device, log[j].message.nonce)
      ==> log[j].at - log[i].at >= log[i].skew
  }

  /** Every acceptance was inside its window, and no later than the clock. */
  ghost predicate Timed(w: World) {
    forall i :: 0 <= i < |w.log| ==>
      && !w.log[i].message.timestamp.Unparsable?
      && !OutsideWindow(w.log[i].message.timestamp, w.log[i].at, w.log[i].skew)
  }

  ghost predicate Inv(w: World) {
    Similar(w.store, w.log, w.clock) && Apart(w.log) && Timed(w)
  }

  lemma StepApart(w: World, c: Call)
    requires Inv(w) && MayCall(w, c)
    ensures Apart(Advance(w, c).log)
  {
    ReplySimilar(w, c);
    var mine := Key(c.message.device, c.message.nonce);
    if Consume(w.store, c.message, c.now, c.skew).1.Accepted? {
      forall i | 0 <= i < |w.log| && Key(w.log[i].message.device, w.log[i].message.nonce) == mine
        ensures c.now - w.log[i].at >= w.log[i].skew
      {
        assert !Remembers(w.log, mine, c.now);
      }
    }
  }

  lemma InvStep(w: World, c: Call)
    requires Inv(w) && MayCall(w, c)
    ensures Inv(Advance(w, c))
  {
    StepSimilar(w, c);
    StepApart(w, c);
  }

  ghost predicate IsRun(ws: seq<World>, cs: seq<Call>) {
    && |ws| == |cs| + 1
    && ws[0] == Start
    && forall n :: 0 <= n < |cs| ==> MayCall(ws[n], cs[n]) && ws[n + 1] == Advance(ws[n], cs[n])
  }

  lemma {:induction false} InvAlong(ws: seq<World>, cs: seq<Call>, n: nat)
    requires IsRun(ws, cs) && n < |ws|
    ensures Inv(ws[n])
  {
    if n > 0 {
      InvAlong(ws, cs, n - 1);
      InvStep(ws[n - 1], cs[n - 1]);
    } else {
      assert forall key, t :: LiveAlike(ws[0].store, ws[0].log, key, t);
    }
  }

  /** Over any run under a non-decreasing clock, every answer is the one a store that forgets nothing would give. */
  lemma ForgettingIsInvisible(ws: seq<World>, cs: seq<Call>, n: nat)
    requires IsRun(ws, cs) && n < |cs|
    ensures Consume(ws[n].store, cs[n].message, cs[n].now, cs[n].skew).1
         == FullReply(ws[n].log, cs[n].message, cs[n].now, cs[n].skew)
  {
    InvAlong(ws, cs, n);
    ReplySimilar(ws[n], cs[n]);
  }

  // ---------------------------------------------------------------- the answers, from the calls before

  function ReplyAt(ws: seq<World>, cs: seq<Call>, n: nat): Reply
    requires n < |ws| && n < |cs|
  {
    Consume(ws[n].store, cs[n].message, cs[n].now, cs[n].skew).1
  }

  /** An earlier call under the same key was accepted and has not expired yet. */
  ghost predicate StillTaken(ws: seq<World>, cs: seq<Call>, n: nat, key: string, now: real)
    requires n <= |cs| && n <= |ws|
  {
    exists i :: 0 <= i < n && ReplyAt(ws, cs, i) == Accepted && cs[i].message.device + ":" + cs[i].message.nonce == key
                && cs[i].now + cs[i].skew > now
  }

  lemma StillTakenStep(ws: seq<World>, cs: seq<Call>, n: nat, key: string, now: real)
    requires n < |cs| && n < |ws|
    ensures StillTaken(ws, cs, n + 1, key, now) <==>
              StillTaken(ws, cs, n, key, now)
              || (ReplyAt(ws, cs, n) == Accepted && cs[n].message.device + ":" + cs[n].message.nonce == key
                  && cs[n].now + cs[n].skew > now)
  {
    if ReplyAt(ws, cs, n) == Accepted && cs[n].message.device + ":" + cs[n].message.nonce == key && cs[n].now + cs[n].skew > now {
      assert StillTaken(ws, cs, n + 1, key, now);
    }
    if i :| 0 <= i < n && ReplyAt(ws, cs, i) == Accepted && cs[i].message.device + ":" + cs[i].message.nonce == key
            && cs[i].now + cs[i].skew > now {
      assert StillTaken(ws, cs, n + 1, key, now);
    }
  }

  lemma {:induction false} RemembersExactly(ws: seq<World>, cs: seq<Call>, n: nat, key: string, now: real)
    requires IsRun(ws, cs) && n < |ws|
    ensures Remembers(ws[n].log, key, now) <==> StillTaken(ws, cs, n, key, now)
  {
    if n > 0 {
      RemembersExactly(ws, cs, n - 1, key, now);
      StillTakenStep(ws, cs, n - 1, key, now);
      var c := cs[n - 1];
      RemembersAppend(ws[n - 1].log, Acceptance(c.message, c.now, c.skew), key, now);
    }
  }

  /**
   Every answer, from the calls before it: a timestamp must parse, and be neither infinite nor more than the skew away
   from the clock on either side; then the call is accepted exactly if no earlier one under the same key was accepted
   and has not expired.
   */
  lemma AnswersExactly(ws: seq<World>, cs: seq<Call>, n: nat)
    requires IsRun(ws, cs) && n < |cs|
    ensures var m, now, skew := cs[n].message, cs[n].now, cs[n].skew;
            ReplyAt(ws, cs, n) ==
              match m.timestamp
              case Unparsable => BadTimestamp
              case Infinite => OutsideAllowedWindow
              case NotANumber => if StillTaken(ws, cs, n, m.device + ":" + m.nonce, now) then Replayed else Accepted
              case Finite(t) =>
                if !(now - skew <= t <= now + skew) then OutsideAllowedWindow
                else if StillTaken(ws, cs, n, m.device + ":" + m.nonce, now) then Replayed
                else Accepted
  {
    ForgettingIsInvisible(ws, cs, n);
    RemembersExactly(ws, cs, n, cs[n].message.device + ":" + cs[n].message.nonce, cs[n].now);
  }

  /** One device's name continues the other's across a colon, and its nonce is what is left. */
  ghost predicate Continues(device: string, nonce: string, other: string, otherNonce: string) {
    exists x :: device == other + ":" + x && otherNonce == x + ":" + nonce
  }

  /** Two devices share a key only if one's name continues the other's across a colon; one device never reuses a key. */
  lemma KeyExactly(d: string, n: string, e: string, m: string)
    ensures Key(d, n) == Key(e, m) <==> (d == e && n == m) || Continues(d, n, e, m) || Continues(e, m, d, n)
  {
    if Key(d, n) == Key(e, m) {
      if |d| == |e| {
        SplitSame(d, n, e, m);
      } else if |e| < |d| {
        SplitLonger(d, n, e, m);
      } else {
        SplitLonger(e, m, d, n);
      }
    }
    if x :| d == e + ":" + x && m == x + ":" + n {
      assert d + ":" + n == e + ":" + (x + ":" + n);
    }
    if x :| e == d + ":" + x && n == x + ":" + m {
      assert e + ":" + m == d + ":" + (x + ":" + m);
    }
  }

  lemma SplitSame(d: string, n: string, e: string, m: string)
    requires Key(d, n) == Key(e, m) && |d| == |e|
    ensures d == e && n == m
  {
    assert d == Key(d, n)[..|d|] && e == Key(e, m)[..|e|];
    assert n == Key(d, n)[|d| + 1..] && m == Key(e, m)[|e| + 1..];
  }

  lemma SplitLonger(d: string, n: string, e: string, m: string)
    requires Key(d, n) == Key(e, m) && |e| < |d|
    ensures Continues(d, n, e, m)
  {
    var all, x := Key(d, n), d[|e| + 1..];
    assert e == all[..|e|] == d[..|e|];
    assert d[|e|] == all[|e|] == ':';
    assert d == e + ":" + x;
    assert m == all[|e| + 1..] == x + ":" + n;
  }

  /** Of devices whose names hold no colon, no two share a key. */
  lemma PlainNamesApart(d: string, n: string, e: string, m: string)
    requires ':' !in d && ':' !in e
    ensures Key(d, n) == Key(e, m) <==> d == e && n == m
  {
    KeyExactly(d, n, e, m);
    NotContinued(d, n, e, m);
    NotContinued(e, m, d, n);
  }

  lemma NotContinued(d: string, n: string, e: string, m: string)
    requires ':' !in d
    ensures !Continues(d, n, e, m)
  {
    forall x ensures d != e + ":" + x {
      assert ':' == (e + ":" + x)[|e|];
    }
  }

  /** Of others two may: then one device's nonce blocks the other's. */
  lemma SharedKey(now: real, skew: real)
    requires now >= 0.0 && skew > 0.0
    ensures var w := Advance(Start, Call(Message("a:b", "c", Finite(now)), now, skew));
            w.log != [] && Consume(w.store, Message("a", "b:c", Finite(now)), now, skew).1 == Replayed
  {
    assert Key("a:b", "c") == "a:b:c" == Key("a", "b:c");
  }

  /** Two acceptances of the same device and nonce are at least the first call's skew apart. */
  lemma AcceptancesApart(ws: seq<World>, cs: seq<Call>, n: nat, i: nat, j: nat)
    requires IsRun(ws, cs) && n < |ws| && i < j < |ws[n].log|
    requires ws[n].log[i].message.device == ws[n].log[j].message.device
    requires ws[n].log[i].message.nonce == ws[n].log[j].message.nonce
    ensures ws[n].log[j].at - ws[n].log[i].at >= ws[n].log[i].skew
  {
    InvAlong(ws, cs, n);
  }

  /**
   With one skew throughout, a message that has been accepted can be accepted again exactly when its
   timestamp is not a number, or is not strictly earlier than the clock that accepted it.
   */
  predicate Replayable(a: Acceptance) {
    a.message.timestamp.NotANumber? || (a.message.timestamp.Finite? && a.message.timestamp.value >= a.at)
  }

  lemma NeverTwiceUnlessReplayable(ws: seq<World>, cs: seq<Call>, n: nat, i: nat, j: nat)
    requires IsRun(ws, cs) && n < |ws| && i < j < |ws[n].log|
    requires ws[n].log[i].message == ws[n].log[j].message && ws[n].log[i].skew == ws[n].log[j].skew
    ensures Replayable(ws[n].log[i])
  {
    InvAlong(ws, cs, n);
    assert Timed(ws[n]);
    var a, b := ws[n].log[i], ws[n].log[j];
    assert !OutsideWindow(b.message.timestamp, b.at, b.skew);
    assert b.at - a.at >= a.skew;
  }

  /** And every replayable acceptance really can be repeated, by the same message exactly one skew later. */
  lemma ReplayableIsReplayed(m: Message, at: real, skew: real)
    requires skew >= 0.0 && at >= 0.0 && !m.timestamp.Unparsable? && !OutsideWindow(m.timestamp, at, skew)
    requires Replayable(Acceptance(m, at, skew))
    ensures var w1 := Advance(Start, Call(m, at, skew));
            var w2 := Advance(w1, Call(m, at + skew, skew));
            w2.log == [Acceptance(m, at, skew), Acceptance(m, at + skew, skew)]
  {}
}
