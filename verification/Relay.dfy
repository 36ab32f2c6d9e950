/**
 The input relay between the control service and the process that owns the browser. Events are files in one
 directory, results files in another. Handler threads draw an event's name and publish its file; a tick of the
 browser process lists the pending files, reads and unlinks them one by one, then checks, applies and answers
 them one by one; readers look a result up, judge its age and unlink it. There are no locks, so every file
 operation is a step of its own here, and the steps of all parties interleave freely. Unlinking a file may fail, which
 nobody notices.
 */
module Relay {
  import opened Prelude
  import opened EventNames

  const RESULT_MAX_AGE: real := 30.0

  /** An event: its id, the file it is stored in, the stamp both are made from, and what it asks for. */
  datatype Payload = Payload(id: string, file: string, tag: Tag, request: string, event: string)

  predicate WellNamed(p: Payload) {
    p.id == EventId(p.tag) && p.file == FileName(p.tag) && InEra(p.tag.stamp)
  }

  datatype Result = Result(applied: bool, appliedAt: real)

  /** A pending file: its event, and how many events had been published before it. */
  datatype Filed = Filed(event: Payload, at: nat)

  /** A consumed event, with the tick that took it and how many events had been published when that tick listed the directory. */
  datatype Taken = Taken(event: Payload, at: nat, listed: nat, tick: nat)

  /** How far the tick is with the first event it still holds. */
  datatype Stage = ToCheck | ToDrive | ToAnswer(applied: bool)

  /** What the tick has of the first file listed: nothing yet, nothing it could read, or the event it takes from it. */
  datatype Hand = Empty | Unread | Held(index: nat)

  /** Where the browser process is within its tick. */
  datatype Phase =
    | Idle
    | Taking(todo: seq<string>, listed: nat, hand: Hand, got: seq<Payload>)
    | Applying(left: seq<Payload>, stage: Stage)

  /** A reader that has a result's payload in hand; the serial says which answer it is. */
  datatype Reader =
    | Looking(id: string, consume: bool, result: Result, serial: nat)
    | Leaving(id: string, serial: nat, age: Option<real>, result: Result)

  /** A result returned to a reader, and how old it was when its age was judged. */
  datatype Handed = Handed(id: string, serial: nat, age: real, result: Result)

  /** The pending files, and what has become of events so far. */
  datatype Inbox = Inbox(
    inputs: map<string, Filed>,
    drawn: set<Payload>,         // named, whether published yet or not
    published: seq<Payload>,
    consumed: seq<Taken>,
    dropped: seq<Payload>,       // unlinked although they could not be read
    failed: set<nat>,            // which consumed events stayed on file because unlinking failed
    left: set<nat>,              // which published events stayed on file for that reason, read or not
    ticks: nat,                  // how often the directory has been listed
    clearedAt: nat)              // how many events had been published when the context was last cleared

  /** The results on file and their readers, and what has been answered, delivered and handed out so far. */
  datatype Outbox = Outbox(
    results: map<string, Result>,
    readers: map<nat, Reader>,
    resolved: seq<string>,       // event ids, in the order their results were written
    serials: map<string, nat>,   // which of these the result last written for an id is
    delivered: seq<nat>,         // which consumed events reached the browser
    handed: seq<Handed>,         // what consuming readers were given
    shown: seq<Handed>,          // what the other readers were given
    lingering: set<nat>)         // which answers stayed on file because unlinking failed when they were handed out

  datatype World = World(
    clock: real,
    inControl: set<string>,      // requests whose status is user_control
    phase: Phase,
    inbox: Inbox,
    outbox: Outbox)

  const START := World(0.0, {}, Idle, Inbox(map[], {}, [], [], [], {}, {}, 0, 0), Outbox(map[], map[], [], map[], [], [], [], {}))

  datatype Step =
    | Draw(payload: Payload)
    | Publish(payload: Payload)
    | ControlChanges(requests: set<string>)
    | BeginTick
    | ReadFile(readable: bool)
    | Unlink(unlinked: bool)
    | EndTaking
    | Check(wellFormed: bool)
    | Drive(succeeds: bool)
    | Answer
    | EndTick
    | Discard(id: string)
    | Look(reader: nat, id: string, consume: bool)
    | Judge(reader: nat)
    | Leave(reader: nat, unlinked: bool)
    | ClearContext
    | Wait(now: real)

  /** A name is drawn with a random tail, so never twice; nothing is assumed about the order of the stamps. */
  predicate IsNew(p: Payload, drawn: set<Payload>) {
    forall q :: q in drawn ==> q.file != p.file && q.id != p.id
  }

  predicate TooOld(r: Result, now: real) {
    now - r.appliedAt > RESULT_MAX_AGE
  }

  predicate Enabled(w: World, s: Step) {
    match s
    case Draw(p) => WellNamed(p) && IsNew(p, w.inbox.drawn)
    case Publish(p) => p in w.inbox.drawn && p !in w.inbox.published
    case ControlChanges(_) => true
    case BeginTick => w.phase.Idle?
    case ReadFile(_) => w.phase.Taking? && w.phase.hand.Empty? && w.phase.todo != []
    case Unlink(_) => w.phase.Taking? && !w.phase.hand.Empty? && w.phase.todo != []
    case EndTaking => w.phase.Taking? && w.phase.hand.Empty? && w.phase.todo == []
    case Check(_) => w.phase.Applying? && w.phase.left != [] && w.phase.stage.ToCheck?
    case Drive(_) => w.phase.Applying? && w.phase.left != [] && w.phase.stage.ToDrive?
    case Answer => w.phase.Applying? && w.phase.left != [] && w.phase.stage.ToAnswer?
    case EndTick => w.phase.Applying? && w.phase.left == []
    case Discard(id) => id in w.outbox.results && TooOld(w.outbox.results[id], w.clock)
    case Look(r, _, _) => r !in w.outbox.readers
    case Judge(r) => r in w.outbox.readers && w.outbox.readers[r].Looking?
    case Leave(r, _) => r in w.outbox.readers && w.outbox.readers[r].Leaving?
    case ClearContext => true
    case Wait(now) => w.clock <= now
  }

  /** The world after the first listed file has been read, or found missing or unreadable. */
  function AfterRead(w: World, readable: bool): World
    requires Enabled(w, ReadFile(readable))
  {
    var f := w.phase.todo[0];
    if f !in w.inbox.inputs || !readable then w.(phase := w.phase.(hand := Unread))
    else
      var filed := w.inbox.inputs[f];
      var taken := Taken(filed.event, filed.at, w.phase.listed, w.inbox.ticks);
      w.(phase := w.phase.(hand := Held(|w.inbox.consumed|), got := w.phase.got + [filed.event]),
         inbox := w.inbox.(consumed := w.inbox.consumed + [taken]))
  }

  /** The tick goes on to the next file whether or not the one it read could be unlinked. */
  function AfterUnlink(w: World, unlinked: bool): World
    requires Enabled(w, Unlink(unlinked))
  {
    var f, box := w.phase.todo[0], w.inbox;
    var v := w.(phase := w.phase.(todo := w.phase.todo[1..], hand := Empty));
    if f !in box.inputs then v
    else if unlinked then
      v.(inbox := box.(inputs := box.inputs - {f},
                       dropped := if w.phase.hand.Unread? then box.dropped + [box.inputs[f].event] else box.dropped))
    else
      v.(inbox := box.(left := box.left + {box.inputs[f].at},
                       failed := if w.phase.hand.Held? then box.failed + {w.phase.hand.index} else box.failed))
  }

  function SerialOf(serials: map<string, nat>, id: string): nat {
    if id in serials then serials[id] else 0
  }

  function AfterJudge(w: World, r: nat): World
    requires Enabled(w, Judge(r))
  {
    var reader, box := w.outbox.readers[r], w.outbox;
    var age := w.clock - reader.result.appliedAt;
    w.(outbox :=
         if TooOld(reader.result, w.clock) then box.(readers := box.readers[r := Leaving(reader.id, reader.serial, None, reader.result)])
         else if reader.consume then box.(readers := box.readers[r := Leaving(reader.id, reader.serial, Some(age), reader.result)])
         else box.(readers := box.readers - {r}, shown := box.shown + [Handed(reader.id, reader.serial, age, reader.result)]))
  }

  /** Unlinking a result; that it may be gone already, or cannot be unlinked, is ignored. */
  function AfterLeave(w: World, r: nat, unlinked: bool): World
    requires Enabled(w, Leave(r, unlinked))
  {
    var reader := w.outbox.readers[r];
    var box := w.outbox.(
      readers := w.outbox.readers - {r},
      handed := if reader.age.Some? then w.outbox.handed + [Handed(reader.id, reader.serial, reader.age.value, reader.result)]
          else w.outbox.handed);
    w.(outbox := if unlinked then box.(results := w.outbox.results - {reader.id})
                 else if Lingers(w, reader) then box.(lingering := w.outbox.lingering + {reader.serial})
                 else box)
  }

  /** The answer being handed out is the one on file. */
  predicate Lingers(w: World, reader: Reader) {
    reader.Leaving? && reader.age.Some? && reader.id in w.outbox.results && SerialOf(w.outbox.serials, reader.id) == reader.serial
  }

  function Next(w: World, s: Step): World
    requires Enabled(w, s)
  {
    match s
    case Draw(p) => w.(inbox := w.inbox.(drawn := w.inbox.drawn + {p}))
    case Publish(p) =>
      var box := w.inbox;
      w.(inbox := box.(inputs := box.inputs[p.file := Filed(p, |box.published|)], published := box.published + [p]))
    case ControlChanges(requests) => w.(inControl := requests)
    case BeginTick =>
      w.(phase := Taking(Sorted(w.inbox.inputs.Keys), |w.inbox.published|, Empty, []),
          inbox := w.inbox.(ticks := w.inbox.ticks + 1))
    case ReadFile(readable) => AfterRead(w, readable)
    case Unlink(unlinked) => AfterUnlink(w, unlinked)
    case EndTaking => w.(phase := Applying(w.phase.got, ToCheck))
    case Check(wellFormed) =>
      w.(phase := w.phase.(stage := if wellFormed && w.phase.left[0].request in w.inControl then ToDrive else ToAnswer(false)))
    case Drive(succeeds) =>
      w.(phase := w.phase.(stage := ToAnswer(succeeds)),
         outbox := w.outbox.(delivered := w.outbox.delivered + [|w.outbox.resolved|]))
    case Answer =>
      var id := w.phase.left[0].id;
      var box := w.outbox;
      w.(phase := Applying(w.phase.left[1..], ToCheck),
         outbox := box.(results := box.results[id := Result(w.phase.stage.applied, w.clock)], resolved := box.resolved + [id],
                        serials := box.serials[id := |box.resolved|]))
    case EndTick => w.(phase := Idle)
    case Discard(id) => w.(outbox := w.outbox.(results := w.outbox.results - {id}))
    case Look(r, id, consume) =>
      if id !in w.outbox.results then w
      else w.(outbox := w.outbox.(readers := w.outbox.readers[r := Looking(id, consume, w.outbox.results[id],
          SerialOf(w.outbox.serials, id))]))
    case Judge(r) => AfterJudge(w, r)
    case Leave(r, unlinked) => AfterLeave(w, r, unlinked)
    case ClearContext =>
      w.(inbox := w.inbox.(inputs := map[], clearedAt := |w.inbox.published|), outbox := w.outbox.(results := map[]))
    case Wait(now) => w.(clock := now)
  }

  predicate InTick(s: Step) {
    s.BeginTick? || s.ReadFile? || s.Unlink? || s.EndTaking? || s.Check? || s.Drive? || s.Answer? || s.EndTick?
  }

  predicate ByReader(s: Step) {
    s.Look? || s.Judge? || s.Leave?
  }

  /** Only the tick's own steps change where it is and what it has done. */
  lemma OutsideTick(w: World, s: Step, v: World)
    requires Enabled(w, s) && v == Next(w, s) && !InTick(s)
    ensures v.phase == w.phase && v.inbox.ticks == w.inbox.ticks && v.inbox.consumed == w.inbox.consumed
            && v.inbox.failed == w.inbox.failed && v.inbox.left == w.inbox.left
    ensures v.outbox.resolved == w.outbox.resolved && v.outbox.delivered == w.outbox.delivered
  {}

  lemma OutsideReaders(w: World, s: Step, v: World)
    requires Enabled(w, s) && v == Next(w, s) && !ByReader(s)
    ensures v.outbox.readers == w.outbox.readers && v.outbox.handed == w.outbox.handed
            && v.outbox.shown == w.outbox.shown && v.outbox.lingering == w.outbox.lingering
  {}

  // ---------------------------------------------------------------- the invariant

  /** The pending files, without the one the tick has taken an event from and is about to unlink. */
  function Waiting(inputs: map<string, Filed>, phase: Phase): map<string, Filed> {
    if phase.Taking? && phase.hand.Held? && phase.todo != [] then inputs - {phase.todo[0]} else inputs
  }

  /** The listed files the tick has yet to read and unlink. */
  function Rest(phase: Phase): seq<string> {
    if !phase.Taking? then []
    else if phase.hand.Held? && phase.todo != [] then phase.todo[1..]
    else phase.todo
  }

  ghost predicate Names(drawn: set<Payload>, published: seq<Payload>) {
    && (forall p :: p in drawn ==> WellNamed(p))
    && (forall p, q :: p in drawn && q in drawn && p != q ==> p.file != q.file && p.id != q.id)
    && (forall i :: 0 <= i < |published| ==> published[i] in drawn)
    && (forall i, j :: 0 <= i < j < |published| ==> published[i] != published[j])
  }

  ghost predicate IsPublished(published: seq<Payload>, p: Payload, at: nat) {
    at < |published| && published[at] == p
  }

  ghost predicate FilesKnown(inputs: map<string, Filed>, published: seq<Payload>) {
    forall f :: f in inputs ==> IsPublished(published, inputs[f].event, inputs[f].at) && inputs[f].event.file == f
  }

  ghost predicate NameKnown(f: string, published: seq<Payload>) {
    exists i :: 0 <= i < |published| && published[i].file == f
  }

  ghost predicate TodoKnown(phase: Phase, published: seq<Payload>) {
    phase.Taking? ==> forall i :: 0 <= i < |phase.todo| ==> NameKnown(phase.todo[i], published)
  }

  /** What has been consumed was published before it was listed, and only again after a failed unlink. */
  ghost predicate TakenKnown(consumed: seq<Taken>, failed: set<nat>, published: seq<Payload>) {
    && (forall i :: 0 <= i < |consumed| ==>
          IsPublished(published, consumed[i].event, consumed[i].at) && consumed[i].at < consumed[i].listed <= |published|)
    && (forall i, j :: 0 <= i < j < |consumed| && consumed[i].at == consumed[j].at ==> i in failed)
    && (forall i, j :: 0 <= i < j < |consumed| ==> consumed[i].listed <= consumed[j].listed)
  }

  ghost predicate NotWaiting(waiting: map<string, Filed>, consumed: seq<Taken>, failed: set<nat>) {
    forall i, f :: 0 <= i < |consumed| && f in waiting && waiting[f].at == consumed[i].at ==> i in failed
  }

  /** Events are consumed tick by tick, and within a tick in the order of the file names. */
  ghost predicate TickOrder(consumed: seq<Taken>, ticks: nat) {
    && (forall i :: 0 <= i < |consumed| ==> consumed[i].tick <= ticks)
    && (forall i, j :: 0 <= i < j < |consumed| ==>
          consumed[i].tick < consumed[j].tick
          || (consumed[i].tick == consumed[j].tick && LexLess(consumed[i].event.file, consumed[j].event.file)))
  }

  /** Whatever a tick listed and did not leave behind, it has taken itself or is still going to. */
  ghost predicate NotPassed(waiting: map<string, Filed>, consumed: seq<Taken>, left: set<nat>, rest: seq<string>, tick: nat) {
    && (forall i, j :: 0 <= i < j < |consumed| && consumed[j].at < consumed[i].listed && consumed[j].at !in left ==>
          consumed[i].tick == consumed[j].tick)
    && (forall i, f :: 0 <= i < |consumed| && f in waiting && waiting[f].at < consumed[i].listed && waiting[f].at !in left ==>
          consumed[i].tick == tick && f in rest)
  }

  /** The names still to be read are those of the waiting files published before the listing, and come after what was read. */
  ghost predicate ListingHolds(rest: seq<string>, listed: nat, tick: nat, waiting: map<string, Filed>, left: set<nat>,
                               consumed: seq<Taken>) {
    && (forall f :: f in waiting && f in rest ==> waiting[f].at < listed)
    && (forall f :: f in waiting && waiting[f].at < listed && waiting[f].at !in left ==> f in rest)
    && (forall i :: 0 <= i < |consumed| ==> consumed[i].listed <= listed)
    && (forall i, f :: 0 <= i < |consumed| && consumed[i].tick == tick && f in rest ==> LexLess(consumed[i].event.file, f))
  }

  ghost predicate Listing(phase: Phase, tick: nat, waiting: map<string, Filed>, left: set<nat>, consumed: seq<Taken>,
                          published: seq<Payload>) {
    phase.Taking? ==>
      && TodoKnown(phase, published) && IsSorted(phase.todo) && phase.listed <= |published|
      && ListingHolds(Rest(phase), phase.listed, tick, waiting, left, consumed)
  }

  /** The event in hand is the last one consumed, and comes from the first file listed. */
  ghost predicate HandKnown(phase: Phase, inputs: map<string, Filed>, consumed: seq<Taken>) {
    phase.Taking? && phase.hand.Held? ==>
      && phase.todo != [] && phase.hand.index + 1 == |consumed|
      && (phase.todo[0] in inputs ==> inputs[phase.todo[0]].at == consumed[phase.hand.index].at)
  }

  ghost predicate Files(drawn: set<Payload>, published: seq<Payload>, inputs: map<string, Filed>, consumed: seq<Taken>,
                        failed: set<nat>) {
    Names(drawn, published) && FilesKnown(inputs, published) && TakenKnown(consumed, failed, published)
  }

  ghost predicate TakenInOrder(waiting: map<string, Filed>, consumed: seq<Taken>, failed: set<nat>, left: set<nat>,
                               rest: seq<string>, tick: nat) {
    NotWaiting(waiting, consumed, failed) && TickOrder(consumed, tick) && NotPassed(waiting, consumed, left, rest, tick)
  }

  ghost predicate Order(w: World) {
    && Files(w.inbox.drawn, w.inbox.published, w.inbox.inputs, w.inbox.consumed, w.inbox.failed)
    && TakenInOrder(Waiting(w.inbox.inputs, w.phase), w.inbox.consumed, w.inbox.failed, w.inbox.left, Rest(w.phase), w.inbox.ticks)
    && Listing(w.phase, w.inbox.ticks, Waiting(w.inbox.inputs, w.phase), w.inbox.left, w.inbox.consumed, w.inbox.published)
    && HandKnown(w.phase, w.inbox.inputs, w.inbox.consumed)
  }

  /** The events held are the consumed ones from position n on. */
  ghost predicate IsTail(events: seq<Payload>, consumed: seq<Taken>, n: nat) {
    && n + |events| == |consumed|
    && forall k :: 0 <= k < |events| ==> events[k] == consumed[n + k].event
  }

  /** The consumed events without a result yet are exactly those the tick is holding. */
  ghost predicate ResultsFollow(phase: Phase, consumed: seq<Taken>, resolved: seq<string>) {
    && |resolved| <= |consumed|
    && (forall i :: 0 <= i < |resolved| ==> resolved[i] == consumed[i].event.id)
    && (phase.Idle? ==> |resolved| == |consumed|)
    && (phase.Taking? ==> IsTail(phase.got, consumed, |resolved|))
    && (phase.Applying? ==> IsTail(phase.left, consumed, |resolved|) && (phase.left == [] ==> phase.stage.ToCheck?))
  }

  /** Deliveries are strictly increasing positions in the order of consumption. */
  ghost predicate Ascending(positions: seq<nat>, bound: nat) {
    && (forall i :: 0 <= i < |positions| ==> positions[i] < bound)
    && (forall i, j :: 0 <= i < j < |positions| ==> positions[i] < positions[j])
  }

  function Bound(phase: Phase, resolved: seq<string>): nat {
    if phase.Applying? && phase.stage.ToAnswer? then |resolved| + 1 else |resolved|
  }

  ghost predicate Pipeline(w: World) {
    ResultsFollow(w.phase, w.inbox.consumed, w.outbox.resolved) && Ascending(w.outbox.delivered, Bound(w.phase, w.outbox.resolved))
  }

  ghost predicate NotHanded(handed: seq<Handed>, serial: nat) {
    forall k :: 0 <= k < |handed| ==> handed[k].serial != serial
  }

  ghost predicate IsAnswer(resolved: seq<string>, serial: nat, id: string) {
    serial < |resolved| && resolved[serial] == id
  }

  ghost predicate ReaderKnown(reader: Reader, resolved: seq<string>) {
    && IsAnswer(resolved, reader.serial, reader.id)
    && (reader.Leaving? && reader.age.Some? ==> reader.age.value <= RESULT_MAX_AGE)
  }

  ghost predicate HandedKnown(h: Handed, resolved: seq<string>) {
    IsAnswer(resolved, h.serial, h.id) && h.age <= RESULT_MAX_AGE
  }

  /** A result on file has not been handed out, unless it was and could not be unlinked. */
  ghost predicate ResultsKnown(results: set<string>, serials: map<string, nat>, resolved: seq<string>, handed: seq<Handed>,
                               lingering: set<nat>) {
    forall id :: id in results ==>
      && IsAnswer(resolved, SerialOf(serials, id), id)
      && (NotHanded(handed, SerialOf(serials, id)) || SerialOf(serials, id) in lingering)
  }

  ghost predicate HandedAll(readers: map<nat, Reader>, resolved: seq<string>, handed: seq<Handed>) {
    && (forall r :: r in readers ==> ReaderKnown(readers[r], resolved))
    && (forall j :: 0 <= j < |handed| ==> HandedKnown(handed[j], resolved))
  }

  ghost predicate Handing(w: World) {
    ResultsKnown(w.outbox.results.Keys, w.outbox.serials, w.outbox.resolved, w.outbox.handed, w.outbox.lingering)
        && HandedAll(w.outbox.readers, w.outbox.resolved, w.outbox.handed)
  }

  ghost predicate Accounted(i: nat, published: seq<Payload>, waiting: map<string, Filed>, consumed: seq<Taken>,
                            dropped: seq<Payload>)
    requires i < |published|
  {
    || (published[i].file in waiting && waiting[published[i].file] == Filed(published[i], i))
    || (exists k :: 0 <= k < |consumed| && consumed[k].at == i)
    || published[i] in dropped
  }

  /** Every event published since the last clear is waiting, has been consumed, or was unlinked unread. */
  ghost predicate AllAccounted(published: seq<Payload>, waiting: map<string, Filed>, consumed: seq<Taken>,
                               dropped: seq<Payload>, from: nat) {
    forall i :: from <= i < |published| ==> Accounted(i, published, waiting, consumed, dropped)
  }

  ghost predicate NothingLost(w: World) {
    AllAccounted(w.inbox.published, Waiting(w.inbox.inputs, w.phase), w.inbox.consumed, w.inbox.dropped, w.inbox.clearedAt)
  }

  /** The event consumed at i is waiting to be consumed again, or has been. */
  ghost predicate ComesBack(i: nat, waiting: map<string, Filed>, consumed: seq<Taken>)
    requires i < |consumed|
  {
    || (consumed[i].event.file in waiting && waiting[consumed[i].event.file].at == consumed[i].at)
    || (exists j :: i < j < |consumed| && consumed[j].at == consumed[i].at)
  }

  /** What was consumed and could not be unlinked comes back, unless it is dropped or cleared. */
  ghost predicate LeftBehind(waiting: map<string, Filed>, consumed: seq<Taken>, failed: set<nat>, left: set<nat>,
                             dropped: seq<Payload>, clearedAt: nat) {
    forall i :: i in failed ==>
      && i < |consumed| && consumed[i].at in left
      && (ComesBack(i, waiting, consumed) || consumed[i].event in dropped || consumed[i].at < clearedAt)
  }

  ghost predicate Returns(w: World) {
    && LeftBehind(Waiting(w.inbox.inputs, w.phase), w.inbox.consumed, w.inbox.failed, w.inbox.left, w.inbox.dropped,
      w.inbox.clearedAt)
    && w.inbox.clearedAt <= |w.inbox.published|
  }

  ghost predicate FilesInv(w: World) {
    Order(w) && NothingLost(w) && Returns(w)
  }

  ghost predicate Inv(w: World) {
    FilesInv(w) && Pipeline(w) && Handing(w)
  }

  /** Nothing about the pending files and their consumption has changed. */
  ghost predicate Aside(w: World, v: World) {
    && v.inbox == w.inbox
    && (v.phase == w.phase || (Rest(w.phase) == [] && !v.phase.Taking? && (w.phase.Taking? ==> w.phase.hand.Empty?)))
  }

  lemma FilesAside(w: World, v: World)
    requires FilesInv(w) && Aside(w, v)
    ensures FilesInv(v)
  {
    assert Waiting(v.inbox.inputs, v.phase) == Waiting(w.inbox.inputs, w.phase) && Rest(v.phase) == Rest(w.phase);
  }

  // ---------------------------------------------------------------- publishing

  lemma PublishFresh(w: World, p: Payload)
    requires Order(w) && Enabled(w, Publish(p))
    ensures !NameKnown(p.file, w.inbox.published) && p.file !in w.inbox.inputs
    ensures w.phase.Taking? ==> p.file !in w.phase.todo
  {
    assert forall i :: 0 <= i < |w.inbox.published| ==> w.inbox.published[i] != p && w.inbox.published[i].file != p.file;
    assert p.file in w.inbox.inputs ==> IsPublished(w.inbox.published, w.inbox.inputs[p.file].event, w.inbox.inputs[p.file].at);
  }

  lemma NamesWith(drawn: set<Payload>, published: seq<Payload>, p: Payload)
    requires Names(drawn, published) && p in drawn && p !in published
    ensures Names(drawn, published + [p])
  {}

  lemma FilesWith(inputs: map<string, Filed>, consumed: seq<Taken>, failed: set<nat>, published: seq<Payload>, p: Payload)
    requires FilesKnown(inputs, published) && TakenKnown(consumed, failed, published)
    ensures FilesKnown(inputs[p.file := Filed(p, |published|)], published + [p]) && TakenKnown(consumed, failed, published + [p])
  {}

  lemma NamesStillKnown(phase: Phase, published: seq<Payload>, p: Payload)
    requires TodoKnown(phase, published)
    ensures TodoKnown(phase, published + [p])
  {
    if phase.Taking? {
      forall i | 0 <= i < |phase.todo| ensures NameKnown(phase.todo[i], published + [p]) {
        var k :| 0 <= k < |published| && published[k].file == phase.todo[i];
        assert (published + [p])[k].file == phase.todo[i];
      }
    }
  }

  lemma WaitingWith(inputs: map<string, Filed>, phase: Phase, f: string, filed: Filed)
    requires f !in inputs && (phase.Taking? ==> f !in phase.todo)
    ensures Waiting(inputs[f := filed], phase) == Waiting(inputs, phase)[f := filed] && f !in Rest(phase)
  {
    if phase.Taking? && phase.hand.Held? && phase.todo != [] {
      assert phase.todo[0] in phase.todo;
    }
  }

  lemma PublishWaiting(w: World, p: Payload, v: World)
    requires Order(w) && Enabled(w, Publish(p)) && v == Next(w, Publish(p))
    ensures p.file !in Waiting(w.inbox.inputs, w.phase) && p.file !in Rest(w.phase)
    ensures Waiting(v.inbox.inputs, v.phase) == Waiting(w.inbox.inputs, w.phase)[p.file := Filed(p, |w.inbox.published|)]
  {
    PublishFresh(w, p);
    WaitingWith(w.inbox.inputs, w.phase, p.file, Filed(p, |w.inbox.published|));
  }

  lemma PublishOrder(waiting: map<string, Filed>, consumed: seq<Taken>, failed: set<nat>, left: set<nat>, rest: seq<string>,
                     tick: nat,
                     published: seq<Payload>, p: Payload)
    requires TakenKnown(consumed, failed, published) && TakenInOrder(waiting, consumed, failed, left, rest, tick)
    ensures TakenInOrder(waiting[p.file := Filed(p, |published|)], consumed, failed, left, rest, tick)
  {}

  lemma PublishListing(rest: seq<string>, listed: nat, tick: nat, waiting: map<string, Filed>, left: set<nat>, consumed: seq<Taken>,
                       published: seq<Payload>, p: Payload)
    requires ListingHolds(rest, listed, tick, waiting, left, consumed) && p.file !in rest && listed <= |published|
    ensures ListingHolds(rest, listed, tick, waiting[p.file := Filed(p, |published|)], left, consumed)
  {}

  lemma PublishKeepsOrder(w: World, p: Payload, v: World)
    requires Order(w) && Enabled(w, Publish(p)) && v == Next(w, Publish(p))
    ensures Order(v)
  {
    NamesWith(w.inbox.drawn, w.inbox.published, p);
    FilesWith(w.inbox.inputs, w.inbox.consumed, w.inbox.failed, w.inbox.published, p);
    NamesStillKnown(w.phase, w.inbox.published, p);
    PublishWaiting(w, p, v);
    PublishFresh(w, p);
    var waiting := Waiting(w.inbox.inputs, w.phase);
    PublishOrder(waiting, w.inbox.consumed, w.inbox.failed, w.inbox.left, Rest(w.phase), w.inbox.ticks, w.inbox.published, p);
    if w.phase.Taking? {
      PublishListing(Rest(w.phase), w.phase.listed, w.inbox.ticks, waiting, w.inbox.left, w.inbox.consumed, w.inbox.published, p);
    }
  }

  lemma PublishAccounts(w: World, p: Payload, v: World)
    requires Order(w) && NothingLost(w) && Enabled(w, Publish(p)) && v == Next(w, Publish(p))
    ensures NothingLost(v)
  {
    PublishWaiting(w, p, v);
    PublishFresh(w, p);
    forall i | v.inbox.clearedAt <= i < |v.inbox.published| ensures Accounted(i, v.inbox.published,
        Waiting(v.inbox.inputs, v.phase), v.inbox.consumed, v.inbox.dropped) {
      if i < |w.inbox.published| {
        assert Accounted(i, w.inbox.published, Waiting(w.inbox.inputs, w.phase), w.inbox.consumed, w.inbox.dropped);
        assert w.inbox.published[i].file != p.file;
      }
    }
  }

  /** More files waiting, none of them changed. */
  lemma MoreWaiting(waiting: map<string, Filed>, more: map<string, Filed>, consumed: seq<Taken>, failed: set<nat>, left: set<nat>,
                    dropped: seq<Payload>, clearedAt: nat)
    requires LeftBehind(waiting, consumed, failed, left, dropped, clearedAt)
    requires forall f :: f in waiting ==> f in more && more[f] == waiting[f]
    ensures LeftBehind(more, consumed, failed, left, dropped, clearedAt)
  {
    forall i | i in failed
      ensures i < |consumed| && consumed[i].at in left
      ensures ComesBack(i, more, consumed) || consumed[i].event in dropped || consumed[i].at < clearedAt
    {
      assert ComesBack(i, waiting, consumed) ==> ComesBack(i, more, consumed);
    }
  }

  lemma PublishReturns(w: World, p: Payload, v: World)
    requires Order(w) && Returns(w) && Enabled(w, Publish(p)) && v == Next(w, Publish(p))
    ensures Returns(v)
  {
    PublishWaiting(w, p, v);
    MoreWaiting(Waiting(w.inbox.inputs, w.phase), Waiting(v.inbox.inputs, v.phase), w.inbox.consumed, w.inbox.failed,
                w.inbox.left, w.inbox.dropped, w.inbox.clearedAt);
  }

  lemma PublishKeeps(w: World, p: Payload, v: World)
    requires Inv(w) && Enabled(w, Publish(p)) && v == Next(w, Publish(p))
    ensures Inv(v)
  {
    PublishKeepsOrder(w, p, v);
    PublishAccounts(w, p, v);
    PublishReturns(w, p, v);
  }

  // ---------------------------------------------------------------- listing

  lemma BeginInOrder(waiting: map<string, Filed>, consumed: seq<Taken>, failed: set<nat>, left: set<nat>, tick: nat,
                     todo: seq<string>)
    requires TakenInOrder(waiting, consumed, failed, left, [], tick)
    ensures TakenInOrder(waiting, consumed, failed, left, todo, tick + 1)
  {}

  lemma BeginListing(todo: seq<string>, inputs: map<string, Filed>, consumed: seq<Taken>, failed: set<nat>, left: set<nat>,
                     published: seq<Payload>, tick: nat)
    requires FilesKnown(inputs, published) && TakenKnown(consumed, failed, published) && TickOrder(consumed, tick)
    requires forall f :: f in todo <==> f in inputs
    ensures ListingHolds(todo, |published|, tick + 1, inputs, left, consumed)
  {}

  ghost predicate Begins(w: World, v: World) {
    && w.phase.Idle? && v.phase.Taking? && v.phase.hand.Empty? && v.phase.listed == |w.inbox.published|
    && v == w.(phase := v.phase, inbox := w.inbox.(ticks := w.inbox.ticks + 1))
    && IsSorted(v.phase.todo) && forall f :: f in v.phase.todo <==> f in w.inbox.inputs
  }

  lemma BeginTodo(todo: seq<string>, inputs: map<string, Filed>, published: seq<Payload>, i: nat)
    requires FilesKnown(inputs, published) && i < |todo| && forall f :: f in todo <==> f in inputs
    ensures NameKnown(todo[i], published)
  {
    var f := todo[i];
    assert f in todo;
    assert IsPublished(published, inputs[f].event, inputs[f].at);
  }

  lemma BeginOrder(w: World, v: World)
    requires Order(w) && Begins(w, v)
    ensures Order(v)
  {
    forall i | 0 <= i < |v.phase.todo| ensures NameKnown(v.phase.todo[i], v.inbox.published) {
      BeginTodo(v.phase.todo, w.inbox.inputs, w.inbox.published, i);
    }
    BeginInOrder(w.inbox.inputs, w.inbox.consumed, w.inbox.failed, w.inbox.left, w.inbox.ticks, v.phase.todo);
    BeginListing(v.phase.todo, w.inbox.inputs, w.inbox.consumed, w.inbox.failed, w.inbox.left, w.inbox.published, w.inbox.ticks);
  }

  lemma BeginPipeline(w: World, v: World)
    requires Pipeline(w) && Enabled(w, BeginTick) && v == Next(w, BeginTick)
    ensures Pipeline(v)
  {}

  lemma BeginFiles(w: World, v: World)
    requires FilesInv(w) && Begins(w, v)
    ensures FilesInv(v)
  {
    BeginOrder(w, v);
    assert Waiting(v.inbox.inputs, v.phase) == Waiting(w.inbox.inputs, w.phase);
  }

  lemma BeginKeeps(w: World, v: World)
    requires Inv(w) && Enabled(w, BeginTick) && v == Next(w, BeginTick)
    ensures Inv(v)
  {
    BeginFiles(w, v);
    BeginPipeline(w, v);
  }

  // ---------------------------------------------------------------- taking

  /** The world while the tick has nothing of the first file listed, which is waiting. */
  ghost predicate ReadyToTake(w: World, f: string, t: Taken) {
    && Enabled(w, ReadFile(true)) && f == w.phase.todo[0] && f in w.inbox.inputs
    && t == Taken(w.inbox.inputs[f].event, w.inbox.inputs[f].at, w.phase.listed, w.inbox.ticks)
  }

  lemma PositionsDiffer(inputs: map<string, Filed>, published: seq<Payload>, f: string, g: string)
    requires FilesKnown(inputs, published) && f in inputs && g in inputs && f != g
    ensures inputs[f].at != inputs[g].at
  {}

  lemma TakeNotWaiting(waiting: map<string, Filed>, consumed: seq<Taken>, failed: set<nat>, published: seq<Payload>,
                       f: string, t: Taken)
    requires NotWaiting(waiting, consumed, failed) && FilesKnown(waiting, published) && f in waiting && t.at == waiting[f].at
    ensures NotWaiting(waiting - {f}, consumed + [t], failed)
  {
    forall g | g in waiting - {f} ensures waiting[g].at != t.at {
      PositionsDiffer(waiting, published, f, g);
    }
  }

  lemma TakeKnown(consumed: seq<Taken>, failed: set<nat>, published: seq<Payload>, waiting: map<string, Filed>, f: string, t: Taken)
    requires TakenKnown(consumed, failed, published) && IsPublished(published, t.event, t.at) && t.at < t.listed <= |published|
    requires NotWaiting(waiting, consumed, failed) && f in waiting && t.at == waiting[f].at
    requires forall i :: 0 <= i < |consumed| ==> consumed[i].listed <= t.listed
    ensures TakenKnown(consumed + [t], failed, published)
  {}

  lemma TakeTick(consumed: seq<Taken>, tick: nat, t: Taken)
    requires TickOrder(consumed, tick) && t.tick == tick
    requires forall i :: 0 <= i < |consumed| && consumed[i].tick == tick ==> LexLess(consumed[i].event.file, t.event.file)
    ensures TickOrder(consumed + [t], tick)
  {}

  lemma TakeNotPassed(waiting: map<string, Filed>, consumed: seq<Taken>, left: set<nat>, todo: seq<string>, listed: nat,
                      tick: nat, t: Taken)
    requires NotPassed(waiting, consumed, left, todo, tick) && ListingHolds(todo, listed, tick, waiting, left, consumed)
    requires todo != [] && todo[0] in waiting && t.at == waiting[todo[0]].at && t.listed == listed && t.tick == tick
    ensures NotPassed(waiting - {todo[0]}, consumed + [t], left, todo[1..], tick)
  {
    assert forall f :: f in todo <==> f == todo[0] || f in todo[1..];
  }

  lemma TakeListing(waiting: map<string, Filed>, consumed: seq<Taken>, left: set<nat>, todo: seq<string>, listed: nat,
                    tick: nat, t: Taken)
    requires ListingHolds(todo, listed, tick, waiting, left, consumed) && IsSorted(todo)
    requires todo != [] && t.event.file == todo[0] && t.listed == listed && t.tick == tick
    ensures ListingHolds(todo[1..], listed, tick, waiting - {todo[0]}, left, consumed + [t])
  {
    assert forall f :: f in todo <==> f == todo[0] || f in todo[1..];
  }

  lemma TakeOrder(w: World, f: string, t: Taken)
    requires Order(w) && ReadyToTake(w, f, t)
    ensures TakenKnown(w.inbox.consumed + [t], w.inbox.failed, w.inbox.published)
    ensures TakenInOrder(w.inbox.inputs - {f}, w.inbox.consumed + [t], w.inbox.failed, w.inbox.left, w.phase.todo[1..],
            w.inbox.ticks)
    ensures ListingHolds(w.phase.todo[1..], w.phase.listed, w.inbox.ticks, w.inbox.inputs - {f}, w.inbox.left,
            w.inbox.consumed + [t])
  {
    assert f in w.phase.todo;
    TakeNotWaiting(w.inbox.inputs, w.inbox.consumed, w.inbox.failed, w.inbox.published, f, t);
    TakeKnown(w.inbox.consumed, w.inbox.failed, w.inbox.published, w.inbox.inputs, f, t);
    TakeTick(w.inbox.consumed, w.inbox.ticks, t);
    TakeNotPassed(w.inbox.inputs, w.inbox.consumed, w.inbox.left, w.phase.todo, w.phase.listed, w.inbox.ticks, t);
    TakeListing(w.inbox.inputs, w.inbox.consumed, w.inbox.left, w.phase.todo, w.phase.listed, w.inbox.ticks, t);
  }

  /** What reading a file changes: it is in hand, or it is not. */
  lemma ReadEffect(w: World, readable: bool, v: World)
    requires Enabled(w, ReadFile(readable)) && v == AfterRead(w, readable)
    ensures v == w.(phase := v.phase, inbox := w.inbox.(consumed := v.inbox.consumed))
    ensures v.phase.Taking? && v.phase.todo == w.phase.todo && v.phase.listed == w.phase.listed
    ensures v.phase.hand == if w.phase.todo[0] in w.inbox.inputs && readable then Held(|w.inbox.consumed|) else Unread
    ensures v.inbox.consumed == if v.phase.hand.Unread? then w.inbox.consumed
                          else w.inbox.consumed + [Taken(w.inbox.inputs[w.phase.todo[0]].event,
                              w.inbox.inputs[w.phase.todo[0]].at, w.phase.listed, w.inbox.ticks)]
  {}

  lemma ReadKeepsOrder(w: World, readable: bool, v: World)
    requires Order(w) && Enabled(w, ReadFile(readable)) && v == AfterRead(w, readable)
    ensures Order(v)
  {
    ReadEffect(w, readable, v);
    if v.phase.hand.Held? {
      HeldOrder(w, w.phase.todo[0], v.inbox.consumed[|w.inbox.consumed|], v);
    } else {
      UnreadOrder(w, v);
    }
  }

  lemma HeldOrder(w: World, f: string, t: Taken, v: World)
    requires Order(w) && ReadyToTake(w, f, t) && v.phase.Taking? && v.phase.hand == Held(|w.inbox.consumed|)
    requires v == w.(phase := v.phase, inbox := w.inbox.(consumed := w.inbox.consumed + [t]))
    requires v.phase.todo == w.phase.todo && v.phase.listed == w.phase.listed
    ensures Order(v)
  {
    TakeOrder(w, f, t);
  }

  lemma UnreadOrder(w: World, v: World)
    requires Order(w) && w.phase.Taking? && w.phase.hand.Empty? && v == w.(phase := v.phase)
    requires v.phase.Taking? && v.phase.todo == w.phase.todo && v.phase.listed == w.phase.listed && v.phase.hand.Unread?
    ensures Order(v)
  {}

  lemma ReadKeepsPipeline(w: World, readable: bool, v: World)
    requires Pipeline(w) && Enabled(w, ReadFile(readable)) && v == AfterRead(w, readable)
    ensures Pipeline(v)
  {}

  lemma TakeAccounts(w: World, f: string, t: Taken, i: nat)
    requires FilesKnown(w.inbox.inputs, w.inbox.published) && ReadyToTake(w, f, t) && i < |w.inbox.published|
    requires Accounted(i, w.inbox.published, w.inbox.inputs, w.inbox.consumed, w.inbox.dropped)
    ensures Accounted(i, w.inbox.published, w.inbox.inputs - {f}, w.inbox.consumed + [t], w.inbox.dropped)
  {
    var longer := w.inbox.consumed + [t];
    if t.at == i {
      assert longer[|w.inbox.consumed|].at == i;
    } else if k :| 0 <= k < |w.inbox.consumed| && w.inbox.consumed[k].at == i {
      assert longer[k].at == i;
    }
  }

  lemma ReadAccounts(w: World, readable: bool, v: World)
    requires FilesKnown(w.inbox.inputs, w.inbox.published) && NothingLost(w) && Enabled(w, ReadFile(readable))
             && v == AfterRead(w, readable)
    ensures NothingLost(v)
  {
    ReadEffect(w, readable, v);
    assert Waiting(w.inbox.inputs, w.phase) == w.inbox.inputs;
    forall i | v.inbox.clearedAt <= i < |v.inbox.published| ensures Accounted(i, v.inbox.published,
        Waiting(v.inbox.inputs, v.phase), v.inbox.consumed, v.inbox.dropped) {
      assert Accounted(i, w.inbox.published, w.inbox.inputs, w.inbox.consumed, w.inbox.dropped);
      if v.phase.hand.Held? {
        TakeAccounts(w, w.phase.todo[0], v.inbox.consumed[|w.inbox.consumed|], i);
      }
    }
  }

  /** An event that was to come back has, or is still to. */
  lemma TakeComesBack(waiting: map<string, Filed>, consumed: seq<Taken>, f: string, t: Taken, i: nat)
    requires f in waiting && t.at == waiting[f].at && i < |consumed| && ComesBack(i, waiting, consumed)
    ensures ComesBack(i, waiting - {f}, consumed + [t])
  {
    var longer := consumed + [t];
    if j :| i < j < |consumed| && consumed[j].at == consumed[i].at {
      assert longer[j].at == longer[i].at;
    } else if consumed[i].event.file == f {
      assert longer[|consumed|].at == longer[i].at;
    }
  }

  lemma ReadReturns(w: World, readable: bool, v: World)
    requires Returns(w) && Enabled(w, ReadFile(readable)) && v == AfterRead(w, readable)
    ensures Returns(v)
  {
    ReadEffect(w, readable, v);
    forall i | i in v.inbox.failed
      ensures i < |v.inbox.consumed| && v.inbox.consumed[i].at in v.inbox.left
      ensures ComesBack(i, Waiting(v.inbox.inputs, v.phase), v.inbox.consumed)
              || v.inbox.consumed[i].event in v.inbox.dropped || v.inbox.consumed[i].at < v.inbox.clearedAt
    {
      if v.phase.hand.Held? && ComesBack(i, w.inbox.inputs, w.inbox.consumed) {
        TakeComesBack(w.inbox.inputs, w.inbox.consumed, w.phase.todo[0], v.inbox.consumed[|w.inbox.consumed|], i);
      }
    }
  }

  lemma ReadKeeps(w: World, readable: bool, v: World)
    requires Inv(w) && Enabled(w, ReadFile(readable)) && v == AfterRead(w, readable)
    ensures Inv(v)
  {
    ReadKeepsOrder(w, readable, v);
    ReadKeepsPipeline(w, readable, v);
    ReadAccounts(w, readable, v);
    ReadReturns(w, readable, v);
  }

  // ---------------------------------------------------------------- unlinking

  /** An event was taken from the file, and it goes: nothing changes about what is waiting. */
  ghost predicate GoesHeld(w: World, f: string, v: World) {
    && w.phase.Taking? && w.phase.todo != [] && f == w.phase.todo[0] && w.phase.hand.Held?
    && v == w.(phase := w.phase.(todo := w.phase.todo[1..], hand := Empty), inbox := w.inbox.(inputs := w.inbox.inputs - {f}))
  }

  lemma FewerTodo(phase: Phase, published: seq<Payload>, rest: Phase)
    requires TodoKnown(phase, published) && phase.Taking? && phase.todo != [] && IsSorted(phase.todo)
    requires rest.Taking? && rest.todo == phase.todo[1..]
    ensures TodoKnown(rest, published) && IsSorted(rest.todo) && phase.todo[0] !in rest.todo
  {
    SortedHead(phase.todo);
  }

  lemma GoesFiles(w: World, f: string, v: World)
    requires FilesInv(w) && GoesHeld(w, f, v)
    ensures FilesInv(v)
  {
    assert Waiting(v.inbox.inputs, v.phase) == Waiting(w.inbox.inputs, w.phase) && Rest(v.phase) == Rest(w.phase);
    FewerTodo(w.phase, w.inbox.published, v.phase);
  }

  /** An event was taken from the file, and it stays: the file is waiting again. */
  ghost predicate StaysHeld(w: World, f: string, k: nat, v: World) {
    && w.phase.Taking? && w.phase.todo != [] && f == w.phase.todo[0] && f in w.inbox.inputs && w.phase.hand == Held(k)
    && v == w.(phase := w.phase.(todo := w.phase.todo[1..], hand := Empty),
      inbox := w.inbox.(left := w.inbox.left + {w.inbox.inputs[f].at}, failed := w.inbox.failed + {k}))
  }

  lemma StaysNotPassed(waiting: map<string, Filed>, consumed: seq<Taken>, left: set<nat>, rest: seq<string>, tick: nat,
                       f: string, filed: Filed)
    requires NotPassed(waiting, consumed, left, rest, tick)
    ensures NotPassed(waiting[f := filed], consumed, left + {filed.at}, rest, tick)
  {}

  lemma StaysListing(rest: seq<string>, listed: nat, tick: nat, waiting: map<string, Filed>, left: set<nat>, consumed: seq<Taken>,
                     f: string, filed: Filed)
    requires ListingHolds(rest, listed, tick, waiting, left, consumed) && f !in rest
    ensures ListingHolds(rest, listed, tick, waiting[f := filed], left + {filed.at}, consumed)
  {}

  lemma WaitingAgain(waiting: map<string, Filed>, consumed: seq<Taken>, failed: set<nat>, f: string, filed: Filed, k: nat)
    requires NotWaiting(waiting, consumed, failed) && k + 1 == |consumed| && consumed[k].at == filed.at
    requires forall i, j :: 0 <= i < j < |consumed| && consumed[i].at == consumed[j].at ==> i in failed
    ensures NotWaiting(waiting[f := filed], consumed, failed + {k})
  {}

  lemma StaysInOrder(waiting: map<string, Filed>, consumed: seq<Taken>, failed: set<nat>, left: set<nat>, rest: seq<string>,
                     tick: nat,
                     published: seq<Payload>, f: string, filed: Filed, k: nat)
    requires TakenInOrder(waiting, consumed, failed, left, rest, tick) && TakenKnown(consumed, failed, published)
    requires k + 1 == |consumed| && consumed[k].at == filed.at
    ensures TakenInOrder(waiting[f := filed], consumed, failed + {k}, left + {filed.at}, rest, tick)
    ensures TakenKnown(consumed, failed + {k}, published)
  {
    WaitingAgain(waiting, consumed, failed, f, filed, k);
    StaysNotPassed(waiting, consumed, left, rest, tick, f, filed);
  }

  lemma StaysWaiting(w: World, f: string, k: nat, v: World)
    requires StaysHeld(w, f, k, v)
    ensures Waiting(v.inbox.inputs, v.phase) == Waiting(w.inbox.inputs, w.phase)[f := w.inbox.inputs[f]]
            && Rest(v.phase) == Rest(w.phase)
  {}

  lemma StaysOrder(w: World, f: string, k: nat, v: World)
    requires Order(w) && StaysHeld(w, f, k, v)
    ensures Order(v)
  {
    StaysWaiting(w, f, k, v);
    FewerTodo(w.phase, w.inbox.published, v.phase);
    var waiting, rest := Waiting(w.inbox.inputs, w.phase), Rest(w.phase);
    StaysInOrder(waiting, w.inbox.consumed, w.inbox.failed, w.inbox.left, rest, w.inbox.ticks, w.inbox.published, f,
                 w.inbox.inputs[f], k);
    StaysListing(rest, w.phase.listed, w.inbox.ticks, waiting, w.inbox.left, w.inbox.consumed, f, w.inbox.inputs[f]);
  }

  lemma StaysLeft(waiting: map<string, Filed>, consumed: seq<Taken>, failed: set<nat>, left: set<nat>, dropped: seq<Payload>,
                  clearedAt: nat,
                  k: nat)
    requires LeftBehind(waiting, consumed, failed, left, dropped, clearedAt)
    requires k < |consumed| && ComesBack(k, waiting, consumed)
    ensures LeftBehind(waiting, consumed, failed + {k}, left + {consumed[k].at}, dropped, clearedAt)
  {}

  lemma StaysReturns(w: World, f: string, k: nat, v: World)
    requires Order(w) && Returns(w) && StaysHeld(w, f, k, v)
    ensures Returns(v)
  {
    assert Waiting(v.inbox.inputs, v.phase) == w.inbox.inputs;
    MoreWaiting(Waiting(w.inbox.inputs, w.phase), w.inbox.inputs, w.inbox.consumed, w.inbox.failed, w.inbox.left,
                w.inbox.dropped, w.inbox.clearedAt);
    assert IsPublished(w.inbox.published, w.inbox.consumed[k].event, w.inbox.consumed[k].at)
           && IsPublished(w.inbox.published, w.inbox.inputs[f].event, w.inbox.inputs[f].at);
    assert ComesBack(k, w.inbox.inputs, w.inbox.consumed);
    StaysLeft(w.inbox.inputs, w.inbox.consumed, w.inbox.failed, w.inbox.left, w.inbox.dropped, w.inbox.clearedAt, k);
  }

  lemma MoreAccounts(published: seq<Payload>, waiting: map<string, Filed>, more: map<string, Filed>, consumed: seq<Taken>,
                     dropped: seq<Payload>, from: nat)
    requires AllAccounted(published, waiting, consumed, dropped, from)
    requires forall f :: f in waiting ==> f in more && more[f] == waiting[f]
    ensures AllAccounted(published, more, consumed, dropped, from)
  {
    forall i | from <= i < |published| ensures Accounted(i, published, more, consumed, dropped) {
      assert Accounted(i, published, waiting, consumed, dropped);
    }
  }

  lemma StaysAccounts(w: World, f: string, k: nat, v: World)
    requires NothingLost(w) && StaysHeld(w, f, k, v)
    ensures NothingLost(v)
  {
    assert Waiting(v.inbox.inputs, v.phase) == w.inbox.inputs;
    MoreAccounts(w.inbox.published, Waiting(w.inbox.inputs, w.phase), w.inbox.inputs, w.inbox.consumed, w.inbox.dropped,
                 w.inbox.clearedAt);
  }

  lemma StaysFiles(w: World, f: string, k: nat, v: World)
    requires FilesInv(w) && StaysHeld(w, f, k, v)
    ensures FilesInv(v)
  {
    StaysOrder(w, f, k, v);
    StaysReturns(w, f, k, v);
    StaysAccounts(w, f, k, v);
  }

  /** Nothing was taken from the file: it was gone, or goes unread, or is left. */
  ghost predicate Passes(waiting: map<string, Filed>, left: set<nat>, f: string, waiting': map<string, Filed>, left': set<nat>) {
    && left <= left' && (forall g :: g in waiting' ==> g in waiting && waiting'[g] == waiting[g])
    && (f in waiting' ==> waiting'[f].at in left')
  }

  lemma PassInOrder(waiting: map<string, Filed>, consumed: seq<Taken>, failed: set<nat>, left: set<nat>, todo: seq<string>,
                    tick: nat,
                    waiting': map<string, Filed>, left': set<nat>)
    requires TakenInOrder(waiting, consumed, failed, left, todo, tick) && todo != []
             && Passes(waiting, left, todo[0], waiting', left')
    ensures TakenInOrder(waiting', consumed, failed, left', todo[1..], tick)
  {
    assert forall g :: g in todo <==> g == todo[0] || g in todo[1..];
  }

  lemma PassListing(todo: seq<string>, listed: nat, tick: nat, waiting: map<string, Filed>, left: set<nat>, consumed: seq<Taken>,
                    waiting': map<string, Filed>, left': set<nat>)
    requires ListingHolds(todo, listed, tick, waiting, left, consumed) && todo != []
             && Passes(waiting, left, todo[0], waiting', left')
    ensures ListingHolds(todo[1..], listed, tick, waiting', left', consumed)
  {
    assert forall g :: g in todo <==> g == todo[0] || g in todo[1..];
  }

  ghost predicate IsPass(w: World, f: string, v: World) {
    && w.phase.Taking? && w.phase.todo != [] && f == w.phase.todo[0] && w.phase.hand.Unread?
    && v == w.(phase := w.phase.(todo := w.phase.todo[1..], hand := Empty),
      inbox := w.inbox.(inputs := v.inbox.inputs, left := v.inbox.left, dropped := v.inbox.dropped))
    && Passes(w.inbox.inputs, w.inbox.left, f, v.inbox.inputs, v.inbox.left)
    && (forall g :: g in w.inbox.inputs && g != f ==> g in v.inbox.inputs)
    && (if f in w.inbox.inputs && f !in v.inbox.inputs then v.inbox.dropped == w.inbox.dropped + [w.inbox.inputs[f].event]
      else v.inbox.dropped == w.inbox.dropped)
  }

  lemma PassOrder(w: World, f: string, v: World)
    requires Order(w) && IsPass(w, f, v)
    ensures Order(v)
  {
    assert Waiting(w.inbox.inputs, w.phase) == w.inbox.inputs && Waiting(v.inbox.inputs, v.phase) == v.inbox.inputs;
    assert Rest(w.phase) == w.phase.todo && Rest(v.phase) == w.phase.todo[1..];
    FewerTodo(w.phase, w.inbox.published, v.phase);
    PassInOrder(w.inbox.inputs, w.inbox.consumed, w.inbox.failed, w.inbox.left, w.phase.todo, w.inbox.ticks, v.inbox.inputs,
                v.inbox.left);
    PassListing(w.phase.todo, w.phase.listed, w.inbox.ticks, w.inbox.inputs, w.inbox.left, w.inbox.consumed, v.inbox.inputs,
                v.inbox.left);
  }

  lemma PassAccounts(w: World, f: string, v: World)
    requires FilesKnown(w.inbox.inputs, w.inbox.published) && NothingLost(w) && IsPass(w, f, v)
    ensures NothingLost(v)
  {
    assert Waiting(w.inbox.inputs, w.phase) == w.inbox.inputs && Waiting(v.inbox.inputs, v.phase) == v.inbox.inputs;
    forall i | v.inbox.clearedAt <= i < |v.inbox.published| ensures Accounted(i, v.inbox.published, v.inbox.inputs,
        v.inbox.consumed, v.inbox.dropped) {
      assert Accounted(i, w.inbox.published, w.inbox.inputs, w.inbox.consumed, w.inbox.dropped);
      assert f in w.inbox.inputs && f !in v.inbox.inputs ==> v.inbox.dropped[|w.inbox.dropped|] == w.inbox.inputs[f].event;
    }
  }

  lemma PassComesBack(w: World, f: string, v: World, i: nat)
    requires FilesKnown(w.inbox.inputs, w.inbox.published) && TakenKnown(w.inbox.consumed, w.inbox.failed, w.inbox.published)
             && IsPass(w, f, v)
    requires i < |w.inbox.consumed| && ComesBack(i, w.inbox.inputs, w.inbox.consumed)
    ensures ComesBack(i, v.inbox.inputs, v.inbox.consumed) || v.inbox.consumed[i].event in v.inbox.dropped
  {
    var t := w.inbox.consumed[i];
    assert IsPublished(w.inbox.published, t.event, t.at);
    if t.event.file == f && f in w.inbox.inputs && w.inbox.inputs[f].at == t.at && f !in v.inbox.inputs {
      assert IsPublished(w.inbox.published, w.inbox.inputs[f].event, t.at);
      assert v.inbox.dropped[|w.inbox.dropped|] == t.event;
    }
  }

  lemma PassReturns(w: World, f: string, v: World)
    requires Order(w) && Returns(w) && IsPass(w, f, v)
    ensures Returns(v)
  {
    assert Waiting(w.inbox.inputs, w.phase) == w.inbox.inputs && Waiting(v.inbox.inputs, v.phase) == v.inbox.inputs;
    forall i | i in v.inbox.failed
      ensures i < |v.inbox.consumed| && v.inbox.consumed[i].at in v.inbox.left
      ensures ComesBack(i, v.inbox.inputs, v.inbox.consumed) || v.inbox.consumed[i].event in v.inbox.dropped
              || v.inbox.consumed[i].at < v.inbox.clearedAt
    {
      if ComesBack(i, w.inbox.inputs, w.inbox.consumed) {
        PassComesBack(w, f, v, i);
      }
    }
  }

  lemma PassFiles(w: World, f: string, v: World)
    requires FilesInv(w) && IsPass(w, f, v)
    ensures FilesInv(v)
  {
    PassOrder(w, f, v);
    PassAccounts(w, f, v);
    PassReturns(w, f, v);
  }

  /** What unlinking amounts to. */
  lemma UnlinkCases(w: World, unlinked: bool, v: World)
    requires Enabled(w, Unlink(unlinked)) && v == AfterUnlink(w, unlinked)
    ensures var f := w.phase.todo[0];
            if w.phase.hand.Unread? then IsPass(w, f, v)
            else if unlinked || f !in w.inbox.inputs then GoesHeld(w, f, v)
            else StaysHeld(w, f, w.phase.hand.index, v)
  {
    var f := w.phase.todo[0];
    assert f !in w.inbox.inputs ==> w.inbox.inputs - {f} == w.inbox.inputs;
  }

  lemma UnlinkFiles(w: World, unlinked: bool, v: World)
    requires FilesInv(w) && Enabled(w, Unlink(unlinked)) && v == AfterUnlink(w, unlinked)
    ensures FilesInv(v)
  {
    UnlinkCases(w, unlinked, v);
    var f := w.phase.todo[0];
    if w.phase.hand.Unread? {
      PassFiles(w, f, v);
    } else if unlinked || f !in w.inbox.inputs {
      GoesFiles(w, f, v);
    } else {
      StaysFiles(w, f, w.phase.hand.index, v);
    }
  }

  lemma UnlinkPipeline(w: World, unlinked: bool, v: World)
    requires Pipeline(w) && Enabled(w, Unlink(unlinked)) && v == AfterUnlink(w, unlinked)
    ensures Pipeline(v)
  {}

  lemma UnlinkKeeps(w: World, unlinked: bool, v: World)
    requires Inv(w) && Enabled(w, Unlink(unlinked)) && v == AfterUnlink(w, unlinked)
    ensures Inv(v)
  {
    UnlinkFiles(w, unlinked, v);
    UnlinkPipeline(w, unlinked, v);
  }

  // ---------------------------------------------------------------- answering

  lemma AnswerResults(results: set<string>, serials: map<string, nat>, resolved: seq<string>, handed: seq<Handed>,
                      lingering: set<nat>,
                      id: string)
    requires ResultsKnown(results, serials, resolved, handed, lingering)
    requires forall j :: 0 <= j < |handed| ==> HandedKnown(handed[j], resolved)
    ensures ResultsKnown(results + {id}, serials[id := |resolved|], resolved + [id], handed, lingering)
  {}

  lemma AnswerAll(readers: map<nat, Reader>, resolved: seq<string>, handed: seq<Handed>, id: string)
    requires HandedAll(readers, resolved, handed)
    ensures HandedAll(readers, resolved + [id], handed)
  {}

  lemma AnswerPipeline(w: World, v: World)
    requires Pipeline(w) && Enabled(w, Answer) && v == Next(w, Answer)
    ensures Pipeline(v)
  {
    var n := |w.outbox.resolved|;
    assert w.phase.left[0] == w.inbox.consumed[n + 0].event;
    forall k | 0 <= k < |v.phase.left| ensures v.phase.left[k] == v.inbox.consumed[n + 1 + k].event {
      assert v.phase.left[k] == w.phase.left[k + 1] == w.inbox.consumed[n + (k + 1)].event;
    }
  }

  lemma AnswerHanding(w: World, v: World)
    requires Handing(w) && Enabled(w, Answer) && v == Next(w, Answer)
    ensures Handing(v)
  {
    AnswerResults(w.outbox.results.Keys, w.outbox.serials, w.outbox.resolved, w.outbox.handed, w.outbox.lingering,
                  w.phase.left[0].id);
    AnswerAll(w.outbox.readers, w.outbox.resolved, w.outbox.handed, w.phase.left[0].id);
    assert v.outbox.results.Keys == w.outbox.results.Keys + {w.phase.left[0].id};
  }

  lemma AnswerKeeps(w: World, v: World)
    requires Inv(w) && Enabled(w, Answer) && v == Next(w, Answer)
    ensures Inv(v)
  {
    FilesAside(w, v);
    AnswerPipeline(w, v);
    AnswerHanding(w, v);
  }

  lemma AscendingSnoc(positions: seq<nat>, n: nat)
    requires Ascending(positions, n)
    ensures Ascending(positions + [n], n + 1)
  {}

  lemma DrivePipeline(w: World, succeeds: bool, v: World)
    requires Pipeline(w) && Enabled(w, Drive(succeeds)) && v == Next(w, Drive(succeeds))
    ensures Pipeline(v)
  {
    AscendingSnoc(w.outbox.delivered, |w.outbox.resolved|);
  }

  lemma DriveKeeps(w: World, succeeds: bool, v: World)
    requires Inv(w) && Enabled(w, Drive(succeeds)) && v == Next(w, Drive(succeeds))
    ensures Inv(v)
  {
    FilesAside(w, v);
    DrivePipeline(w, succeeds, v);
  }

  // ---------------------------------------------------------------- reading results

  lemma LeaveResults(results: set<string>, serials: map<string, nat>, resolved: seq<string>, handed: seq<Handed>,
                     lingering: set<nat>,
                     h: Handed, fewer: set<string>, more: set<nat>)
    requires ResultsKnown(results, serials, resolved, handed, lingering) && IsAnswer(resolved, h.serial, h.id)
    requires fewer <= results && lingering <= more
    requires h.id in fewer && SerialOf(serials, h.id) == h.serial ==> h.serial in more
    ensures ResultsKnown(fewer, serials, resolved, handed + [h], more)
  {}

  lemma FewerResults(results: set<string>, serials: map<string, nat>, resolved: seq<string>, handed: seq<Handed>,
                     lingering: set<nat>,
                     fewer: set<string>)
    requires ResultsKnown(results, serials, resolved, handed, lingering) && fewer <= results
    ensures ResultsKnown(fewer, serials, resolved, handed, lingering)
  {}

  /** A step that concerns readers and results only. */
  lemma ReaderAside(w: World, v: World)
    requires Inv(w) && Handing(v)
    requires v == w.(outbox := w.outbox.(results := v.outbox.results, readers := v.outbox.readers, handed := v.outbox.handed,
             shown := v.outbox.shown, lingering := v.outbox.lingering))
    ensures Inv(v)
  {
    FilesAside(w, v);
  }

  lemma LookHands(w: World, s: Step, v: World)
    requires Handing(w) && Enabled(w, s) && v == Next(w, s) && s.Look?
    ensures Handing(v)
  {
    if s.id in w.outbox.results {
      assert s.id in w.outbox.results.Keys;
    }
  }

  lemma JudgeHands(w: World, r: nat, v: World)
    requires Handing(w) && Enabled(w, Judge(r)) && v == AfterJudge(w, r)
    ensures Handing(v)
  {
    assert ReaderKnown(w.outbox.readers[r], w.outbox.resolved);
  }

  lemma LeaveReaders(w: World, r: nat, unlinked: bool, v: World)
    requires HandedAll(w.outbox.readers, w.outbox.resolved, w.outbox.handed) && Enabled(w, Leave(r, unlinked))
             && v == AfterLeave(w, r, unlinked)
    ensures HandedAll(v.outbox.readers, v.outbox.resolved, v.outbox.handed)
  {
    assert ReaderKnown(w.outbox.readers[r], w.outbox.resolved);
  }

  /** What leaving changes about the results: the file goes or stays, and the answer is handed out or not. */
  lemma LeaveEffect(w: World, r: nat, unlinked: bool, v: World)
    requires Enabled(w, Leave(r, unlinked)) && v == AfterLeave(w, r, unlinked)
    ensures v.outbox.serials == w.outbox.serials && v.outbox.resolved == w.outbox.resolved
            && w.outbox.lingering <= v.outbox.lingering
    ensures v.outbox.results.Keys == if unlinked then w.outbox.results.Keys - {w.outbox.readers[r].id} else w.outbox.results.Keys
    ensures var reader := w.outbox.readers[r];
            if reader.age.None? then v.outbox.handed == w.outbox.handed && v.outbox.lingering == w.outbox.lingering
            else v.outbox.handed == w.outbox.handed + [Handed(reader.id, reader.serial, reader.age.value, reader.result)]
                 && (!unlinked && Lingers(w, reader) ==> reader.serial in v.outbox.lingering)
  {}

  lemma LeaveHands(w: World, r: nat, unlinked: bool, v: World)
    requires Handing(w) && Enabled(w, Leave(r, unlinked)) && v == AfterLeave(w, r, unlinked)
    ensures ResultsKnown(v.outbox.results.Keys, v.outbox.serials, v.outbox.resolved, v.outbox.handed, v.outbox.lingering)
  {
    LeaveEffect(w, r, unlinked, v);
    var reader := w.outbox.readers[r];
    assert ReaderKnown(reader, w.outbox.resolved);
    if reader.age.Some? {
      LeaveResults(w.outbox.results.Keys, w.outbox.serials, w.outbox.resolved, w.outbox.handed, w.outbox.lingering,
          Handed(reader.id, reader.serial, reader.age.value, reader.result),
                   v.outbox.results.Keys, v.outbox.lingering);
    } else {
      FewerResults(w.outbox.results.Keys, w.outbox.serials, w.outbox.resolved, w.outbox.handed, w.outbox.lingering,
                   v.outbox.results.Keys);
    }
  }

  // ---------------------------------------------------------------- every step

  lemma NamesDrawn(drawn: set<Payload>, published: seq<Payload>, p: Payload)
    requires Names(drawn, published) && WellNamed(p) && IsNew(p, drawn)
    ensures Names(drawn + {p}, published)
  {}

  lemma DrawKeeps(w: World, p: Payload, v: World)
    requires Inv(w) && Enabled(w, Draw(p)) && v == Next(w, Draw(p))
    ensures Inv(v)
  {
    NamesDrawn(w.inbox.drawn, w.inbox.published, p);
  }

  lemma NoneWaiting(waiting: map<string, Filed>, consumed: seq<Taken>, failed: set<nat>, left: set<nat>, rest: seq<string>,
                    tick: nat)
    requires TakenInOrder(waiting, consumed, failed, left, rest, tick)
    ensures TakenInOrder(map[], consumed, failed, left, rest, tick)
  {}

  lemma NoneListed(rest: seq<string>, listed: nat, tick: nat, waiting: map<string, Filed>, left: set<nat>, consumed: seq<Taken>)
    requires ListingHolds(rest, listed, tick, waiting, left, consumed)
    ensures ListingHolds(rest, listed, tick, map[], left, consumed)
  {}

  lemma ClearOrder(w: World, v: World)
    requires Order(w) && v == w.(inbox := w.inbox.(inputs := map[], clearedAt := v.inbox.clearedAt),
             outbox := w.outbox.(results := v.outbox.results))
    ensures Order(v)
  {
    assert Waiting(v.inbox.inputs, v.phase) == map[];
    NoneWaiting(Waiting(w.inbox.inputs, w.phase), w.inbox.consumed, w.inbox.failed, w.inbox.left, Rest(w.phase), w.inbox.ticks);
    if w.phase.Taking? {
      NoneListed(Rest(w.phase), w.phase.listed, w.inbox.ticks, Waiting(w.inbox.inputs, w.phase), w.inbox.left, w.inbox.consumed);
    }
  }

  lemma ClearReturns(w: World, v: World)
    requires Order(w) && Returns(w)
    requires v == w.(inbox := w.inbox.(inputs := map[], clearedAt := |w.inbox.published|), outbox := v.outbox)
    ensures Returns(v)
  {
    forall i | i in v.inbox.failed ensures v.inbox.consumed[i].at < v.inbox.clearedAt {
      assert IsPublished(w.inbox.published, w.inbox.consumed[i].event, w.inbox.consumed[i].at);
    }
  }

  lemma ClearHands(w: World, v: World)
    requires Handing(w) && v == Next(w, ClearContext)
    ensures Handing(v)
  {
    assert v.outbox.results.Keys == {};
  }

  lemma ClearFiles(w: World, v: World)
    requires FilesInv(w) && v == Next(w, ClearContext)
    ensures FilesInv(v)
  {
    ClearOrder(w, v);
    ClearReturns(w, v);
  }

  lemma ClearKeeps(w: World, v: World)
    requires Inv(w) && v == Next(w, ClearContext)
    ensures Inv(v)
  {
    ClearHands(w, v);
    ClearFiles(w, v);
  }

  /** Steps of the tick that touch no file. */
  lemma PhaseKeeps(w: World, s: Step, v: World)
    requires Inv(w) && Enabled(w, s) && v == Next(w, s) && (s.EndTaking? || s.Check? || s.EndTick?)
    ensures Inv(v)
  {
    FilesAside(w, v);
    PhasePipeline(w, s, v);
  }

  lemma PhasePipeline(w: World, s: Step, v: World)
    requires Pipeline(w) && Enabled(w, s) && v == Next(w, s) && (s.EndTaking? || s.Check? || s.EndTick?)
    ensures Pipeline(v)
  {}

  lemma OutsideKeeps(w: World, s: Step, v: World)
    requires Inv(w) && Enabled(w, s) && v == Next(w, s) && (s.ControlChanges? || s.Wait?)
    ensures Inv(v)
  {
    FilesAside(w, v);
  }

  lemma TickKeeps(w: World, s: Step, v: World)
    requires Inv(w) && Enabled(w, s) && v == Next(w, s)
    requires s.BeginTick? || s.ReadFile? || s.Unlink? || s.Answer? || s.Drive?
    ensures Inv(v)
  {
    if s.BeginTick? {
      BeginKeeps(w, v);
    } else if s.ReadFile? {
      ReadKeeps(w, s.readable, v);
    } else if s.Unlink? {
      UnlinkKeeps(w, s.unlinked, v);
    } else if s.Answer? {
      AnswerKeeps(w, v);
    } else {
      DriveKeeps(w, s.succeeds, v);
    }
  }

  lemma ReaderFrame(w: World, s: Step, v: World)
    requires Enabled(w, s) && v == Next(w, s) && (ByReader(s) || s.Discard?)
    ensures v == w.(outbox := w.outbox.(results := v.outbox.results, readers := v.outbox.readers, handed := v.outbox.handed,
            shown := v.outbox.shown, lingering := v.outbox.lingering))
  {}

  lemma ReaderHands(w: World, s: Step, v: World)
    requires Handing(w) && Enabled(w, s) && v == Next(w, s) && (ByReader(s) || s.Discard?)
    ensures Handing(v)
  {
    if s.Look? {
      LookHands(w, s, v);
    } else if s.Judge? {
      JudgeHands(w, s.reader, v);
    } else if s.Leave? {
      LeaveHands(w, s.reader, s.unlinked, v);
      LeaveReaders(w, s.reader, s.unlinked, v);
    } else {
      FewerResults(w.outbox.results.Keys, w.outbox.serials, w.outbox.resolved, w.outbox.handed, w.outbox.lingering,
                   v.outbox.results.Keys);
    }
  }

  lemma ReaderKeeps(w: World, s: Step, v: World)
    requires Inv(w) && Enabled(w, s) && v == Next(w, s) && (ByReader(s) || s.Discard?)
    ensures Inv(v)
  {
    ReaderFrame(w, s, v);
    ReaderHands(w, s, v);
    ReaderAside(w, v);
  }

  lemma StepKeeps(w: World, s: Step, v: World)
    requires Inv(w) && Enabled(w, s) && v == Next(w, s)
    ensures Inv(v)
  {
    if ByReader(s) || s.Discard? {
      ReaderKeeps(w, s, v);
    } else if s.EndTaking? || s.Check? || s.EndTick? {
      PhaseKeeps(w, s, v);
    } else if s.ControlChanges? || s.Wait? {
      OutsideKeeps(w, s, v);
    } else if s.Draw? {
      DrawKeeps(w, s.payload, v);
    } else if s.Publish? {
      PublishKeeps(w, s.payload, v);
    } else if s.ClearContext? {
      ClearKeeps(w, v);
    } else {
      TickKeeps(w, s, v);
    }
  }

  // ---------------------------------------------------------------- runs

  ghost predicate IsPath(ws: seq<World>, steps: seq<Step>) {
    && |ws| == |steps| + 1
    && forall n {:trigger steps[n]} :: 0 <= n < |steps| ==> Enabled(ws[n], steps[n]) && ws[n + 1] == Next(ws[n], steps[n])
  }

  ghost predicate IsRun(ws: seq<World>, steps: seq<Step>) {
    IsPath(ws, steps) && ws[0] == START
  }

  lemma {:induction false} InvAlong(ws: seq<World>, steps: seq<Step>, n: nat)
    requires IsRun(ws, steps) && n < |ws|
    ensures Inv(ws[n])
  {
    if n > 0 {
      InvAlong(ws, steps, n - 1);
      StepKeeps(ws[n - 1], steps[n - 1], ws[n]);
    }
  }
}
