/** Delivery over whole runs of the chat store: every claim, in the order it was made. */
module ChatRuns {
  import opened Prelude
  import opened Chat
  import opened ChatStore

  /** One claimed message, as it was in the queue when it was claimed. */
  datatype Delivery = Delivery(id: string, priority: int, sequence: int, epoch: nat)

  /** One appended message; epochs are separated by resets. */
  datatype Entry = Entry(id: string, sequence: int, epoch: nat)

  /** The store together with everything that ever happened to it. */
  datatype World = World(
    store: Store, epoch: nat, seenMessages: set<string>, seenRecords: set<string>,
    appended: seq<Entry>, claimed: seq<Delivery>)

  const Start := World(EmptyStore, 0, {}, {}, [], [])

  datatype Call = Call(op: Op, env: Env)

  /** Identifiers are never drawn twice. */
  predicate Fresh(w: World, c: Call) {
    c.env.messageId != "" && c.env.messageId !in w.seenMessages && c.env.recordId !in w.seenRecords
  }

  predicate IdsKnown(w: World) {
    w.store.messages.Keys <= w.seenMessages && w.store.records.Keys <= w.seenRecords
  }

  function NewEntries(w: World, c: Call): seq<Entry>
    requires Valid(w.store)
  {
    if c.op.Append? && Written(w.store, c.op, c.env).Some?
    then [Entry(c.env.messageId, w.store.nextSequence, w.epoch)]
    else []
  }

  function NewClaims(w: World, c: Call): seq<Delivery>
    requires Valid(w.store)
  {
    if c.op.Claim? && FirstPending(w.store.messages).Some?
    then
      var id := FirstPending(w.store.messages).value;
      var m := w.store.messages[id];
      [Delivery(id, Priority(m), m.sequence, w.epoch)]
    else []
  }

  function Advance(w: World, c: Call): World
    requires Valid(w.store) && IdsKnown(w) && Fresh(w, c)
  {
    World(Step(w.store, c.op, c.env),
          if c.op.ArchiveAndReset? then w.epoch + 1 else w.epoch,
          w.seenMessages + {c.env.messageId}, w.seenRecords + {c.env.recordId},
          w.appended + NewEntries(w, c), w.claimed + NewClaims(w, c))
  }

  // ---------------------------------------------------------------- the invariant

  /** Nothing claimed is queued again. */
  ghost predicate ClaimsGone(w: World) {
    forall i :: 0 <= i < |w.claimed| ==>
      && w.claimed[i].id in w.seenMessages
      && (w.claimed[i].id in w.store.messages ==> !IsPending(w.store.messages[w.claimed[i].id]))
  }

  ghost predicate ClaimedOnce(claimed: seq<Delivery>) {
    forall i, j :: 0 <= i < j < |claimed| ==> claimed[i].id != claimed[j].id
  }

  /** Whatever is still queued in this epoch is behind every earlier claim of its class. */
  ghost predicate QueueBehindClaims(w: World) {
    forall i, k :: 0 <= i < |w.claimed| && w.claimed[i].epoch == w.epoch && k in w.store.messages
      && IsPending(w.store.messages[k]) && Priority(w.store.messages[k]) == w.claimed[i].priority
      ==> w.claimed[i].sequence < w.store.messages[k].sequence
  }

  ghost predicate ClaimsNumbered(w: World) {
    forall i :: 0 <= i < |w.claimed| ==>
      w.claimed[i].epoch <= w.epoch && (w.claimed[i].epoch == w.epoch ==> w.claimed[i].sequence < w.store.nextSequence)
  }

  ghost predicate ClaimsOrdered(claimed: seq<Delivery>) {
    forall i, j :: 0 <= i < j < |claimed| && claimed[i].epoch == claimed[j].epoch && claimed[i].priority == claimed[j].priority
      ==> claimed[i].sequence < claimed[j].sequence
  }

  ghost predicate AppendsOrdered(w: World) {
    && (forall i, j :: 0 <= i < j < |w.appended| && w.appended[i].epoch == w.appended[j].epoch
          ==> w.appended[i].sequence < w.appended[j].sequence)
    && (forall i :: 0 <= i < |w.appended| ==>
          && w.appended[i].epoch <= w.epoch
          && (w.appended[i].epoch == w.epoch ==> w.appended[i].sequence < w.store.nextSequence))
  }

  ghost predicate StoredWereAppended(w: World) {
    forall k :: k in w.store.messages ==> Entry(k, w.store.messages[k].sequence, w.epoch) in w.appended
  }

  ghost predicate ClaimedWereAppended(w: World) {
    forall i :: 0 <= i < |w.claimed| ==> Entry(w.claimed[i].id, w.claimed[i].sequence, w.claimed[i].epoch) in w.appended
  }

  ghost predicate Inv(w: World) {
    && Valid(w.store) && IdsKnown(w)
    && ClaimsGone(w) && ClaimedOnce(w.claimed)
    && ClaimsNumbered(w) && QueueBehindClaims(w) && ClaimsOrdered(w.claimed)
    && AppendsOrdered(w) && StoredWereAppended(w) && ClaimedWereAppended(w)
  }

  predicate Appends(w: World, c: Call)
    requires Valid(w.store)
  {
    c.op.Append? && Written(w.store, c.op, c.env).Some?
  }

  /** Where a message found after the call came from. */
  ghost predicate Origin(w: World, c: Call, v: World, k: string)
    requires Valid(w.store) && k in v.store.messages
  {
    var m := v.store.messages[k];
    if k in w.store.messages then
      && m.sequence == w.store.messages[k].sequence
      && (IsPending(m) ==> m == w.store.messages[k] && NewClaimId(w, c) != Some(k))
    else
      Appends(w, c) && k == c.env.messageId && m.sequence == w.store.nextSequence
  }

  function NewClaimId(w: World, c: Call): Option<string>
    requires Valid(w.store)
  {
    if c.op.Claim? then FirstPending(w.store.messages) else None
  }

  /** All that the invariant proofs need to know about one call. */
  ghost predicate Follows(w: World, c: Call, v: World)
    requires Valid(w.store)
  {
    && Valid(v.store)
    && v.store.messages.Keys <= w.store.messages.Keys + {c.env.messageId}
    && v.store.records.Keys <= w.store.records.Keys + {c.env.recordId}
    && v.seenMessages == w.seenMessages + {c.env.messageId}
    && v.seenRecords == w.seenRecords + {c.env.recordId}
    && v.appended == w.appended + NewEntries(w, c)
    && v.claimed == w.claimed + NewClaims(w, c)
    && (if c.op.ArchiveAndReset? then v.epoch == w.epoch + 1 && v.store == EmptyStore
        else
          && v.epoch == w.epoch
          && v.store.nextSequence == (if Appends(w, c) then w.store.nextSequence + 1 else w.store.nextSequence)
          && forall k :: k in v.store.messages ==> Origin(w, c, v, k))
  }

  lemma NextSequenceStep(s: Store, op: Op, e: Env)
    requires Valid(s) && FreshFor(s, e) && !op.ArchiveAndReset?
    ensures Step(s, op, e).nextSequence
         == if op.Append? && Written(s, op, e).Some? then s.nextSequence + 1 else s.nextSequence
  {
    var w := Written(s, op, e);
    if w.Some? {
      WrittenFacts(s, op, e);
      AppendIsNew(s, op, e);
      StepWrites(s, op, e, w.value, Step(s, op, e));
    } else {
      StepDrops(s, op, e, Step(s, op, e));
    }
  }

  lemma AppendIsNew(s: Store, op: Op, e: Env)
    requires Valid(s) && FreshFor(s, e) && Written(s, op, e).Some?
    ensures op.Append? <==> Written(s, op, e).value.id !in s.messages
  {}

  lemma OriginStep(w: World, c: Call, k: string)
    requires Valid(w.store) && IdsKnown(w) && Fresh(w, c) && k in Step(w.store, c.op, c.env).messages
    requires !c.op.ArchiveAndReset?
    ensures Origin(w, c, Advance(w, c), k)
  {
    StepOrigin(w.store, c.op, c.env, Step(w.store, c.op, c.env), k);
    if k in w.store.messages && Target(w.store, c.op, c.env) == Some(k) {
      WrittenFacts(w.store, c.op, c.env);
    }
  }

  lemma AdvanceFollows(w: World, c: Call)
    requires Valid(w.store) && IdsKnown(w) && Fresh(w, c)
    ensures Follows(w, c, Advance(w, c))
  {
    var v := Advance(w, c);
    StepValid(w.store, c.op, c.env);
    if !c.op.ArchiveAndReset? {
      NextSequenceStep(w.store, c.op, c.env);
      forall k | k in v.store.messages ensures Origin(w, c, v, k) {
        OriginStep(w, c, k);
      }
    }
  }

  lemma KeepsClaimsGone(w: World, c: Call, v: World)
    requires Inv(w) && Fresh(w, c) && Follows(w, c, v)
    ensures ClaimsGone(v) && ClaimedOnce(v.claimed)
  {
    forall i | 0 <= i < |v.claimed|
      ensures v.claimed[i].id in v.seenMessages
      ensures v.claimed[i].id in v.store.messages ==> !IsPending(v.store.messages[v.claimed[i].id])
    {
      var id := v.claimed[i].id;
      assert i < |w.claimed| ==> v.claimed[i] == w.claimed[i];
      if id in v.store.messages {
        assert Origin(w, c, v, id);
      }
    }
  }

  lemma KeepsQueueBehind(w: World, c: Call, v: World)
    requires Inv(w) && Fresh(w, c) && Follows(w, c, v)
    ensures ClaimsNumbered(v) && QueueBehindClaims(v)
  {
    if !c.op.ArchiveAndReset? {
      forall i, k | 0 <= i < |v.claimed| && v.claimed[i].epoch == v.epoch && k in v.store.messages
        && IsPending(v.store.messages[k]) && Priority(v.store.messages[k]) == v.claimed[i].priority
        ensures v.claimed[i].sequence < v.store.messages[k].sequence
      {
        assert Origin(w, c, v, k);
        assert i < |w.claimed| ==> v.claimed[i] == w.claimed[i];
        if k in w.store.messages && i >= |w.claimed| {
          assert k in PendingIds(w.store.messages);
        }
      }
    }
  }

  lemma KeepsClaimsOrdered(w: World, c: Call, v: World)
    requires Inv(w) && Fresh(w, c) && Follows(w, c, v)
    ensures ClaimsOrdered(v.claimed)
  {}

  lemma KeepsAppended(w: World, c: Call, v: World)
    requires Inv(w) && Fresh(w, c) && Follows(w, c, v)
    ensures AppendsOrdered(v) && StoredWereAppended(v)
  {}

  lemma KeepsClaimedAppended(w: World, c: Call, v: World)
    requires Inv(w) && Fresh(w, c) && Follows(w, c, v)
    ensures ClaimedWereAppended(v)
  {}

  lemma InvStep(w: World, c: Call, v: World)
    requires Inv(w) && Fresh(w, c) && v == Advance(w, c)
    ensures Inv(v)
  {
    AdvanceFollows(w, c);
    KeepsClaimsGone(w, c, v);
    KeepsQueueBehind(w, c, v);
    KeepsClaimsOrdered(w, c, v);
    KeepsAppended(w, c, v);
    KeepsClaimedAppended(w, c, v);
  }

  // ---------------------------------------------------------------- runs

  ghost predicate IsRun(ws: seq<World>, cs: seq<Call>) {
    && |ws| == |cs| + 1
    && ws[0] == Start
    && forall i :: 0 <= i < |cs| ==>
         Valid(ws[i].store) && IdsKnown(ws[i]) && Fresh(ws[i], cs[i]) && ws[i + 1] == Advance(ws[i], cs[i])
  }

  lemma StartInv()
    ensures Inv(Start)
  {}

  lemma {:induction false} InvAlong(ws: seq<World>, cs: seq<Call>, n: nat)
    requires IsRun(ws, cs) && n < |ws|
    ensures Inv(ws[n])
  {
    if n == 0 {
      StartInv();
    } else {
      InvAlong(ws, cs, n - 1);
      InvStep(ws[n - 1], cs[n - 1], ws[n]);
    }
  }

  /** Each message is claimed at most once in any run, even across resets. */
  lemma ClaimedAtMostOnce(ws: seq<World>, cs: seq<Call>, n: nat, i: nat, j: nat)
    requires IsRun(ws, cs) && n < |ws|
    requires i < j < |ws[n].claimed|
    ensures ws[n].claimed[i].id != ws[n].claimed[j].id
  {
    InvAlong(ws, cs, n);
  }

  /**
   Between resets, two messages of one priority class are claimed in the order they were appended:
   their append positions come in the same order as their claims.
   */
  lemma ClaimOrderIsAppendOrder(ws: seq<World>, cs: seq<Call>, n: nat, i: nat, j: nat)
    requires IsRun(ws, cs) && n < |ws|
    requires i < j < |ws[n].claimed|
    requires ws[n].claimed[i].epoch == ws[n].claimed[j].epoch
    requires ws[n].claimed[i].priority == ws[n].claimed[j].priority
    ensures exists p, q :: 0 <= p < q < |ws[n].appended|
              && ws[n].appended[p].id == ws[n].claimed[i].id && ws[n].appended[q].id == ws[n].claimed[j].id
  {
    InvAlong(ws, cs, n);
    var w := ws[n];
    var a := Entry(w.claimed[i].id, w.claimed[i].sequence, w.claimed[i].epoch);
    var b := Entry(w.claimed[j].id, w.claimed[j].sequence, w.claimed[j].epoch);
    assert a in w.appended && b in w.appended;
    var p :| 0 <= p < |w.appended| && w.appended[p] == a;
    var q :| 0 <= q < |w.appended| && w.appended[q] == b;
    assert a.sequence < b.sequence;
    assert p < q;
  }

  /** A claim never passes over a queued message that is better by (priority, sequence). */
  lemma ClaimTakesTheBest(ws: seq<World>, cs: seq<Call>, n: nat, k: string)
    requires IsRun(ws, cs) && n < |cs|
    requires cs[n].op.Claim?
    requires k in ws[n].store.messages && IsPending(ws[n].store.messages[k])
    ensures |ws[n + 1].claimed| == |ws[n].claimed| + 1
    ensures var d := ws[n + 1].claimed[|ws[n].claimed|];
            var m := ws[n].store.messages[k];
            d.id == k || d.priority < Priority(m) || (d.priority == Priority(m) && d.sequence < m.sequence)
  {}

  /**
   In any run a claim takes a pause if one is queued, otherwise a control message if one is queued, and of the messages
   of one kind the earliest; and it is marked claimed.
   */
  lemma ClaimedByKind(ws: seq<World>, cs: seq<Call>, n: nat)
    requires IsRun(ws, cs) && n < |cs| && cs[n].op.Claim?
    requires exists k :: k in ws[n].store.messages && ws[n].store.messages[k].role == User && ws[n].store.messages[k].status == Queued
    ensures |ws[n + 1].claimed| == |ws[n].claimed| + 1
    ensures var id := ws[n + 1].claimed[|ws[n].claimed|].id;
            && GoesFirst(ws[n].store.messages, id)
            && id in ws[n + 1].store.messages && ws[n + 1].store.messages[id].status == Claimed
  {
    var w, e := ws[n], cs[n].env;
    var id := FirstPending(w.store.messages).value;
    var m := w.store.messages[id].(status := Claimed, claimedAt := Some(e.now), updatedAt := e.now);
    StepWrites(w.store, Claim, e, m, Step(w.store, Claim, e));
  }

  /** A queued message leaves the queue only by a write addressed to it, and the store only by a reset. */
  lemma {:induction false} QueuedUntilTouched(ws: seq<World>, cs: seq<Call>, k: string, i: nat, j: nat)
    requires IsRun(ws, cs) && i <= j < |ws|
    requires k in ws[i].store.messages && ws[i].store.messages[k].status == Queued
    requires forall n :: i <= n < j ==> !cs[n].op.ArchiveAndReset? && Target(ws[n].store, cs[n].op, cs[n].env) != Some(k)
    ensures k in ws[j].store.messages && ws[j].store.messages[k] == ws[i].store.messages[k]
    decreases j - i
  {
    if i < j {
      QueuedStays(ws[i].store, cs[i].op, cs[i].env, k);
      QueuedUntilTouched(ws, cs, k, i + 1, j);
    }
  }

  // ---------------------------------------------------------------- progress of the queue

  /** The queued messages that would be claimed before k. */
  ghost function AheadOf(ms: map<string, Message>, k: string): set<string>
    requires k in ms
  {
    set x | x in ms && IsPending(ms[x]) && Ahead(ms[x], ms[k])
  }

  /** The queue r holds is that of s without `first`, message for message. */
  ghost predicate Without(s: map<string, Message>, r: map<string, Message>, first: string) {
    && (forall x :: x in s && IsPending(s[x]) && x != first ==> x in r && r[x] == s[x])
    && (forall x :: x in r && IsPending(r[x]) ==> x in s && r[x] == s[x] && x != first)
  }

  lemma ClaimTakesOne(s: Store, e: Env, r: Store, first: string)
    requires Valid(s) && FreshFor(s, e) && r == Step(s, Claim, e) && FirstPending(s.messages) == Some(first)
    ensures Without(s.messages, r.messages, first)
  {
    assert Target(s, Claim, e) == Some(first);
    forall x | x in s.messages && IsPending(s.messages[x]) && x != first
      ensures x in r.messages && r.messages[x] == s.messages[x]
    {
      QueuedStays(s, Claim, e, x);
    }
    forall x | x in r.messages && IsPending(r.messages[x])
      ensures x in s.messages && r.messages[x] == s.messages[x] && x != first
    {
      StepOrigin(s, Claim, e, r, x);
    }
  }

  lemma AheadShrinks(s: map<string, Message>, r: map<string, Message>, first: string, k: string)
    requires Without(s, r, first) && k in s && IsPending(s[k]) && k != first
    ensures k in r && r[k] == s[k] && AheadOf(r, k) == AheadOf(s, k) - {first}
  {}

  /** Each claim either takes k or takes away one of those ahead of it. */
  lemma ClaimShortens(s: Store, e: Env, k: string, r: Store)
    requires Valid(s) && FreshFor(s, e) && r == Step(s, Claim, e)
    requires k in s.messages && IsPending(s.messages[k]) && FirstPending(s.messages) != Some(k)
    ensures k in r.messages && r.messages[k] == s.messages[k]
    ensures FirstPending(s.messages).Some? && FirstPending(s.messages).value in AheadOf(s.messages, k)
    ensures AheadOf(r.messages, k) == AheadOf(s.messages, k) - {FirstPending(s.messages).value}
  {
    assert k in PendingIds(s.messages);
    var first := FirstPending(s.messages).value;
    ClaimTakesOne(s, e, r, first);
    AheadShrinks(s.messages, r.messages, first, k);
  }

  /** The call appends a queued message of a better class than m. */
  predicate AppendsBetter(w: World, c: Call, m: Message)
    requires Valid(w.store)
  {
    Appends(w, c) && IsPending(NewMessage(w.store, c.op, c.env)) && Priority(NewMessage(w.store, c.op, c.env)) < Priority(m)
  }

  function One(b: bool): nat {
    if b then 1 else 0
  }

  lemma NewcomerAhead(s: Store, op: Op, e: Env, r: Store, k: string, x: string)
    requires Valid(s) && FreshFor(s, e) && r == Step(s, op, e) && k in s.messages && k in r.messages && r.messages[k] == s.messages[k]
    requires x in r.messages && IsPending(r.messages[x]) && Ahead(r.messages[x], s.messages[k])
    ensures (x in s.messages && r.messages[x] == s.messages[x])
            || (x == e.messageId && op.Append? && Written(s, op, e).Some? && r.messages[x] == NewMessage(s, op, e)
                && Priority(NewMessage(s, op, e)) < Priority(s.messages[k]))
  {
    StepOrigin(s, op, e, r, x);
  }

  /** A call other than a claim puts at most a newly appended better message ahead of k. */
  lemma OthersAdd(w: World, c: Call, v: World, k: string)
    requires Inv(w) && Fresh(w, c) && v == Advance(w, c) && !c.op.Claim? && k in w.store.messages && k in v.store.messages
    requires v.store.messages[k] == w.store.messages[k]
    ensures |AheadOf(v.store.messages, k)| <= |AheadOf(w.store.messages, k)| + One(AppendsBetter(w, c, w.store.messages[k]))
  {
    var before, after := AheadOf(w.store.messages, k), AheadOf(v.store.messages, k);
    var extra := if AppendsBetter(w, c, w.store.messages[k]) then {c.env.messageId} else {};
    forall x | x in after ensures x in before + extra {
      NewcomerAhead(w.store, c.op, c.env, v.store, k, x);
    }
    SubsetSize(after, before + extra);
  }

  lemma AheadStep(w: World, c: Call, v: World, k: string)
    requires Inv(w) && Fresh(w, c) && v == Advance(w, c) && !c.op.ArchiveAndReset?
    requires k in w.store.messages && IsPending(w.store.messages[k]) && Target(w.store, c.op, c.env) != Some(k)
    ensures k in v.store.messages && v.store.messages[k] == w.store.messages[k]
    ensures |AheadOf(v.store.messages, k)| + One(c.op.Claim?)
         <= |AheadOf(w.store.messages, k)| + One(AppendsBetter(w, c, w.store.messages[k]))
  {
    QueuedStays(w.store, c.op, c.env, k);
    if c.op.Claim? {
      assert k in PendingIds(w.store.messages);
      ClaimShortens(w.store, c.env, k, v.store);
    } else {
      OthersAdd(w, c, v, k);
    }
  }

  lemma AheadAt(ws: seq<World>, cs: seq<Call>, n: nat, k: string)
    requires IsRun(ws, cs) && n < |cs| && !cs[n].op.ArchiveAndReset?
    requires k in ws[n].store.messages && IsPending(ws[n].store.messages[k])
    requires Valid(ws[n].store) ==> Target(ws[n].store, cs[n].op, cs[n].env) != Some(k)
    ensures k in ws[n + 1].store.messages && ws[n + 1].store.messages[k] == ws[n].store.messages[k]
    ensures |AheadOf(ws[n + 1].store.messages, k)| + One(cs[n].op.Claim?)
         <= |AheadOf(ws[n].store.messages, k)| + One(AppendsBetter(ws[n], cs[n], ws[n].store.messages[k]))
  {
    InvAlong(ws, cs, n);
    AheadStep(ws[n], cs[n], ws[n + 1], k);
  }

  /** How many of the calls from i on, up to j, are claims. */
  function ClaimsMade(cs: seq<Call>, i: nat, j: nat): nat
    requires i <= j <= |cs|
  {
    if i == j then 0 else ClaimsMade(cs, i, j - 1) + One(cs[j - 1].op.Claim?)
  }

  ghost predicate AllValid(ws: seq<World>, cs: seq<Call>) {
    |ws| == |cs| + 1 && forall n {:trigger cs[n]} :: 0 <= n < |cs| ==> Valid(ws[n].store)
  }

  /** How many of them append a queued message of a better class than m. */
  ghost function BetterAppends(ws: seq<World>, cs: seq<Call>, m: Message, i: nat, j: nat): nat
    requires AllValid(ws, cs) && i <= j <= |cs|
  {
    if i == j then 0 else BetterAppends(ws, cs, m, i, j - 1) + One(AppendsBetter(ws[j - 1], cs[j - 1], m))
  }

  /** A message that waits goes on waiting unchanged, and a claim uses up one of those ahead of it. */
  ghost predicate WaitsOn(w: World, c: Call, v: World, k: string)
    requires Valid(w.store)
  {
    k in w.store.messages && IsPending(w.store.messages[k]) ==>
      && k in v.store.messages && v.store.messages[k] == w.store.messages[k]
      && |AheadOf(v.store.messages, k)| + One(c.op.Claim?)
      <= |AheadOf(w.store.messages, k)| + One(AppendsBetter(w, c, w.store.messages[k]))
  }

  lemma {:induction false} WaitsFrom(ws: seq<World>, cs: seq<Call>, k: string, i: nat, j: nat)
    requires AllValid(ws, cs) && i <= j <= |cs| && k in ws[i].store.messages && IsPending(ws[i].store.messages[k])
    requires forall n {:trigger cs[n]} :: i <= n < j ==> WaitsOn(ws[n], cs[n], ws[n + 1], k)
    ensures k in ws[j].store.messages && ws[j].store.messages[k] == ws[i].store.messages[k]
    ensures ClaimsMade(cs, i, j) + |AheadOf(ws[j].store.messages, k)|
         <= |AheadOf(ws[i].store.messages, k)| + BetterAppends(ws, cs, ws[i].store.messages[k], i, j)
  {
    if i < j {
      WaitsFrom(ws, cs, k, i, j - 1);
      assert WaitsOn(ws[j - 1], cs[j - 1], ws[j], k);
    }
  }

  /**
   As long as nothing writes to a queued message and there is no reset, every claim uses up one of the messages that
   were ahead of it or that came in ahead of it since.
   */
  lemma WaitsAtMost(ws: seq<World>, cs: seq<Call>, k: string, i: nat, j: nat)
    requires IsRun(ws, cs) && i <= j <= |cs| && k in ws[i].store.messages && IsPending(ws[i].store.messages[k])
    requires forall n :: i <= n < j ==> !cs[n].op.ArchiveAndReset? && Target(ws[n].store, cs[n].op, cs[n].env) != Some(k)
    ensures k in ws[j].store.messages && ws[j].store.messages[k] == ws[i].store.messages[k]
    ensures ClaimsMade(cs, i, j) + |AheadOf(ws[j].store.messages, k)|
         <= |AheadOf(ws[i].store.messages, k)| + BetterAppends(ws, cs, ws[i].store.messages[k], i, j)
  {
    forall n | i <= n < j ensures WaitsOn(ws[n], cs[n], ws[n + 1], k) {
      if k in ws[n].store.messages && IsPending(ws[n].store.messages[k]) {
        AheadAt(ws, cs, n, k);
      }
    }
    WaitsFrom(ws, cs, k, i, j);
  }

  ghost predicate ClaimedBetween(ws: seq<World>, cs: seq<Call>, k: string, i: nat, j: nat)
    requires IsRun(ws, cs) && i <= j <= |cs|
  {
    exists n :: i <= n < j && cs[n].op.Claim? && FirstPending(ws[n].store.messages) == Some(k)
  }

  /** The first call between i and j that writes to k, if there is one. */
  lemma {:induction false} FirstWriteTo(ws: seq<World>, cs: seq<Call>, k: string, i: nat, j: nat) returns (n: nat)
    requires IsRun(ws, cs) && i <= j <= |cs|
    ensures i <= n <= j && forall m :: i <= m < n ==> Target(ws[m].store, cs[m].op, cs[m].env) != Some(k)
    ensures n < j ==> Target(ws[n].store, cs[n].op, cs[n].env) == Some(k)
    decreases j - i
  {
    if i == j || Target(ws[i].store, cs[i].op, cs[i].env) == Some(k) {
      n := i;
    } else {
      n := FirstWriteTo(ws, cs, k, i + 1, j);
    }
  }

  /**
   In any run without a reset in which only claims write to it, a queued message is claimed before there have been
   more claims than messages ahead of it at the outset and messages of a better class appended since.
   */
  lemma ClaimedInTurn(ws: seq<World>, cs: seq<Call>, k: string, i: nat, j: nat)
    requires IsRun(ws, cs) && i <= j <= |cs| && k in ws[i].store.messages && IsPending(ws[i].store.messages[k])
    requires forall n :: i <= n < j ==> !cs[n].op.ArchiveAndReset?
    requires forall n :: i <= n < j && Target(ws[n].store, cs[n].op, cs[n].env) == Some(k) ==> cs[n].op.Claim?
    requires ClaimsMade(cs, i, j) > |AheadOf(ws[i].store.messages, k)| + BetterAppends(ws, cs, ws[i].store.messages[k], i, j)
    ensures ClaimedBetween(ws, cs, k, i, j)
  {
    var n := FirstWriteTo(ws, cs, k, i, j);
    if n == j {
      WaitsAtMost(ws, cs, k, i, j);
    } else {
      InvAlong(ws, cs, n);
      ClaimTargets(ws[n].store, cs[n].env, k);
    }
  }

  lemma ClaimTargets(s: Store, e: Env, k: string)
    requires Valid(s) && Target(s, Claim, e) == Some(k)
    ensures FirstPending(s.messages) == Some(k)
  {}
}
