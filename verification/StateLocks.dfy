/**
 The locks behind the state files: one re-entrant lock per file, made on demand under a guard and kept for
 ever. Looking a lock up, acquiring it, writing the file and releasing it are separate steps, and the steps of
 any number of threads interleave freely.
 */
module StateLocks {
  import opened Prelude

  type Thread = nat
  type Lock = nat

  /** The lock of each normalised path, and the next lock to be made. */
  datatype Table = Table(locks: map<string, Lock>, next: Lock)

  function Lookup(t: Table, path: string): (Table, Lock) {
    if path in t.locks then (t, t.locks[path])
    else (Table(t.locks[path := t.next], t.next + 1), t.next)
  }

  class LockTable {
    var locks: map<string, Lock>
    var next: Lock

    constructor ()
      ensures locks == map[] && next == 0
    {
      locks, next := map[], 0;
    }

    method LockForPath(path: string) returns (lock: Lock)
      modifies this
      ensures (Table(locks, next), lock) == Lookup(old(Table(locks, next)), path)
      ensures path in locks && locks[path] == lock
      ensures forall p :: p in old(locks) ==> p in locks && locks[p] == old(locks)[p]
    {
      if path !in locks {
        locks := locks[path := next];
        next := next + 1;
      }
      lock := locks[path];
    }
  }

  // ---------------------------------------------------------------- threads

  /** A locked section: the file, and the lock that was looked up for it. */
  datatype Section = Section(path: string, lock: Lock)

  /** Who holds a lock, and how many of its sections that thread is inside of. */
  datatype Hold = Hold(owner: Thread, depth: nat)

  datatype World = World(
    table: Table,
    waiting: map<Thread, Section>,        // looked up, not yet entered
    inside: map<Thread, seq<Section>>,    // entered, innermost last
    held: map<Lock, Hold>,                // a lock that is not here is free
    files: map<string, string>)

  const START := World(Table(map[], 0), map[], map[], map[], map[])

  datatype Step =
    | LookUp(thread: Thread, path: string)
    | Acquire(thread: Thread)
    | Write(thread: Thread, path: string, content: string)
    | Release(thread: Thread)

  function Sections(inside: map<Thread, seq<Section>>, t: Thread): seq<Section> {
    if t in inside then inside[t] else []
  }

  predicate Inside(w: World, t: Thread, path: string) {
    exists i :: 0 <= i < |Sections(w.inside, t)| && Sections(w.inside, t)[i].path == path
  }

  function FileOf(w: World, path: string): Option<string> {
    if path in w.files then Some(w.files[path]) else None
  }

  /** A re-entrant lock is granted when it is free or already held by the same thread. */
  predicate Free(held: map<Lock, Hold>, l: Lock, t: Thread) {
    l in held ==> held[l].owner == t
  }

  /** Every write happens inside a section of the file written. */
  predicate Enabled(w: World, s: Step) {
    match s
    case LookUp(t, _) => t !in w.waiting
    case Acquire(t) => t in w.waiting && Free(w.held, w.waiting[t].lock, t)
    case Write(t, path, _) => Inside(w, t, path)
    case Release(t) => Sections(w.inside, t) != []
  }

  function Taken(held: map<Lock, Hold>, l: Lock, t: Thread): map<Lock, Hold> {
    held[l := Hold(t, if l in held then held[l].depth + 1 else 1)]
  }

  function GivenBack(held: map<Lock, Hold>, l: Lock): map<Lock, Hold> {
    if l in held && held[l].depth > 1 then held[l := held[l].(depth := held[l].depth - 1)] else held - {l}
  }

  function Next(w: World, s: Step): World
    requires Enabled(w, s)
  {
    match s
    case LookUp(t, path) =>
      var (table, lock) := Lookup(w.table, path);
      w.(table := table, waiting := w.waiting[t := Section(path, lock)])
    case Acquire(t) =>
      var section := w.waiting[t];
      w.(waiting := w.waiting - {t}, inside := w.inside[t := Sections(w.inside, t) + [section]],
         held := Taken(w.held, section.lock, t))
    case Write(_, path, content) => w.(files := w.files[path := content])
    case Release(t) =>
      var mine := Sections(w.inside, t);
      w.(inside := w.inside[t := mine[..|mine| - 1]], held := GivenBack(w.held, mine[|mine| - 1].lock))
  }

  // ---------------------------------------------------------------- the invariant

  /** How many of the sections were entered through this lock. */
  function Count(sections: seq<Section>, l: Lock): nat {
    if sections == [] then 0
    else Count(sections[..|sections| - 1], l) + if sections[|sections| - 1].lock == l then 1 else 0
  }

  lemma CountSnoc(sections: seq<Section>, x: Section, l: Lock)
    ensures Count(sections + [x], l) == Count(sections, l) + if x.lock == l then 1 else 0
  {
    assert (sections + [x])[..|sections|] == sections;
  }

  lemma {:induction false} CountPositive(sections: seq<Section>, l: Lock)
    ensures Count(sections, l) > 0 <==> exists i :: 0 <= i < |sections| && sections[i].lock == l
  {
    if sections != [] {
      CountPositive(sections[..|sections| - 1], l);
    }
  }

  /** Distinct paths have distinct locks, all made before the next one. */
  ghost predicate OneLockEach(t: Table) {
    && (forall p :: p in t.locks ==> t.locks[p] < t.next)
    && (forall p, q :: p in t.locks && q in t.locks && t.locks[p] == t.locks[q] ==> p == q)
  }

  ghost predicate Current(t: Table, s: Section) {
    s.path in t.locks && t.locks[s.path] == s.lock
  }

  /** Every lock looked up for a path is still the table's lock for it. */
  ghost predicate AllCurrent(t: Table, waiting: map<Thread, Section>, inside: map<Thread, seq<Section>>) {
    && (forall u :: u in waiting ==> Current(t, waiting[u]))
    && (forall u, i :: u in inside && 0 <= i < |inside[u]| ==> Current(t, inside[u][i]))
  }

  /** The hold on a lock counts exactly the sections of its one owner. */
  ghost predicate Counts(held: map<Lock, Hold>, inside: map<Thread, seq<Section>>, t: Thread, l: Lock) {
    if l in held && held[l].owner == t
    then Count(Sections(inside, t), l) == held[l].depth && held[l].depth >= 1
    else Count(Sections(inside, t), l) == 0
  }

  ghost predicate AllCounted(held: map<Lock, Hold>, inside: map<Thread, seq<Section>>) {
    forall t, l :: Counts(held, inside, t, l)
  }

  ghost predicate Inv(w: World) {
    OneLockEach(w.table) && AllCurrent(w.table, w.waiting, w.inside) && AllCounted(w.held, w.inside)
  }

  lemma AcquireCounts(held: map<Lock, Hold>, inside: map<Thread, seq<Section>>, t: Thread, section: Section,
                      u: Thread, l: Lock)
    requires Counts(held, inside, u, l) && Counts(held, inside, t, section.lock) && Free(held, section.lock, t)
    ensures Counts(Taken(held, section.lock, t), inside[t := Sections(inside, t) + [section]], u, l)
  {
    if u == t {
      CountSnoc(Sections(inside, t), section, l);
    }
  }

  lemma ReleaseCounts(held: map<Lock, Hold>, inside: map<Thread, seq<Section>>, t: Thread, rest: seq<Section>,
                      last: Section, u: Thread, l: Lock)
    requires Counts(held, inside, u, l) && Counts(held, inside, t, last.lock) && Sections(inside, t) == rest + [last]
    ensures Counts(GivenBack(held, last.lock), inside[t := rest], u, l)
  {
    CountSnoc(rest, last, l);
    CountSnoc(rest, last, last.lock);
  }

  lemma StepCounts(w: World, s: Step)
    requires AllCounted(w.held, w.inside) && Enabled(w, s)
    ensures AllCounted(Next(w, s).held, Next(w, s).inside)
  {
    var v := Next(w, s);
    if s.Acquire? {
      forall u, l ensures Counts(v.held, v.inside, u, l) {
        AcquireCounts(w.held, w.inside, s.thread, w.waiting[s.thread], u, l);
      }
    } else if s.Release? {
      var mine := Sections(w.inside, s.thread);
      assert mine == mine[..|mine| - 1] + [mine[|mine| - 1]];
      forall u, l ensures Counts(v.held, v.inside, u, l) {
        ReleaseCounts(w.held, w.inside, s.thread, mine[..|mine| - 1], mine[|mine| - 1], u, l);
      }
    }
  }

  lemma StepKeeps(w: World, s: Step)
    requires Inv(w) && Enabled(w, s)
    ensures Inv(Next(w, s))
  {
    StepCounts(w, s);
  }

  ghost predicate IsRun(ws: seq<World>, steps: seq<Step>) {
    && |ws| == |steps| + 1
    && ws[0] == START
    && forall n :: 0 <= n < |steps| ==> Enabled(ws[n], steps[n]) && ws[n + 1] == Next(ws[n], steps[n])
  }

  lemma {:induction false} InvAlong(ws: seq<World>, steps: seq<Step>, n: nat)
    requires IsRun(ws, steps) && n < |ws|
    ensures Inv(ws[n])
  {
    if n > 0 {
      InvAlong(ws, steps, n - 1);
      StepKeeps(ws[n - 1], steps[n - 1]);
    }
  }

  // ---------------------------------------------------------------- what the locks give

  /** A thread inside a section of a file holds that file's lock. */
  lemma InsideHolds(w: World, t: Thread, path: string)
    requires Inv(w) && Inside(w, t, path)
    ensures path in w.table.locks && w.table.locks[path] in w.held && w.held[w.table.locks[path]].owner == t
  {
    var mine := Sections(w.inside, t);
    var i :| 0 <= i < |mine| && mine[i].path == path;
    assert Current(w.table, mine[i]);
    CountPositive(mine, mine[i].lock);
    assert Counts(w.held, w.inside, t, mine[i].lock);
  }

  /** And the owner of a file's lock is inside a section of that very file. */
  lemma HolderInside(w: World, path: string)
    requires Inv(w) && path in w.table.locks && w.table.locks[path] in w.held
    ensures Inside(w, w.held[w.table.locks[path]].owner, path)
  {
    var l := w.table.locks[path];
    var t := w.held[l].owner;
    assert Counts(w.held, w.inside, t, l);
    CountPositive(Sections(w.inside, t), l);
    var i :| 0 <= i < |Sections(w.inside, t)| && Sections(w.inside, t)[i].lock == l;
    assert Current(w.table, Sections(w.inside, t)[i]);
  }

  /** No two threads are ever inside sections of the same file. */
  lemma OneThreadPerFile(ws: seq<World>, steps: seq<Step>, n: nat, t: Thread, u: Thread, path: string)
    requires IsRun(ws, steps) && n < |ws| && Inside(ws[n], t, path) && Inside(ws[n], u, path)
    ensures t == u
  {
    InvAlong(ws, steps, n);
    InsideHolds(ws[n], t, path);
    InsideHolds(ws[n], u, path);
  }

  /** A waiting thread is held up exactly by another thread inside a section of the same file, and by nothing else. */
  lemma BlockedExactly(ws: seq<World>, steps: seq<Step>, n: nat, t: Thread)
    requires IsRun(ws, steps) && n < |ws| && t in ws[n].waiting
    ensures !Enabled(ws[n], Acquire(t)) <==> exists u :: u != t && Inside(ws[n], u, ws[n].waiting[t].path)
  {
    InvAlong(ws, steps, n);
    var w, path := ws[n], ws[n].waiting[t].path;
    assert Current(w.table, w.waiting[t]);
    if w.waiting[t].lock in w.held {
      HolderInside(w, path);
    }
    if u :| u != t && Inside(w, u, path) {
      InsideHolds(w, u, path);
    }
  }

  /**
   A locked section is atomic for its file: from any point of it to any later one the file changes only by
   the thread's own writes, whatever the other threads do in between.
   */
  lemma {:induction false} SectionUndisturbed(ws: seq<World>, steps: seq<Step>, n: nat, m: nat, t: Thread, path: string)
    requires IsRun(ws, steps) && n <= m < |ws|
    requires forall k :: n <= k < m ==> Inside(ws[k], t, path)
    requires forall k :: n <= k < m ==> !(steps[k].Write? && steps[k].thread == t && steps[k].path == path)
    ensures FileOf(ws[m], path) == FileOf(ws[n], path)
  {
    if n < m {
      SectionUndisturbed(ws, steps, n, m - 1, t, path);
      if steps[m - 1].Write? && steps[m - 1].path == path {
        OneThreadPerFile(ws, steps, m - 1, t, steps[m - 1].thread, path);
      }
    }
  }

  /** So within its section a thread finds what it wrote last. */
  lemma FindsOwnWrite(ws: seq<World>, steps: seq<Step>, n: nat, m: nat, t: Thread, path: string, content: string)
    requires IsRun(ws, steps) && n < m < |ws| && steps[n] == Write(t, path, content)
    requires forall k :: n < k < m ==> Inside(ws[k], t, path)
    requires forall k :: n < k < m ==> !(steps[k].Write? && steps[k].thread == t && steps[k].path == path)
    ensures FileOf(ws[m], path) == Some(content)
  {
    SectionUndisturbed(ws, steps, n + 1, m, t, path);
    assert Enabled(ws[n], steps[n]) && ws[n + 1] == Next(ws[n], steps[n]);
  }
}
