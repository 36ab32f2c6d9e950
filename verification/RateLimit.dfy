/**
 The rate limiter. A bucket forgets attempts that have left the window; it is compared here with a bucket
 that forgets nothing, over whole runs of calls on any keys under a non-decreasing clock.
 */
module RateLimit {
  import opened Prelude

  datatype Bucket = Bucket(attempts: seq<real>, lockedUntil: real)

  datatype Limits = Limits(maxAttempts: int, window: real, lockout: real)

  const Fresh := Bucket([], 0.0)

  datatype Verdict = Accepted | Locked | Exceeded

  function Recent(attempts: seq<real>, since: real): (r: seq<real>)
    ensures |r| <= |attempts|
    ensures forall x :: x in r ==> x in attempts && x >= since
  {
    if attempts == [] then []
    else
      var last := attempts[|attempts| - 1];
      Recent(attempts[..|attempts| - 1], since) + if last >= since then [last] else []
  }

  // ---------------------------------------------------------------- the bucket that forgets

  function Check(b: Bucket, l: Limits, now: real): (Bucket, Verdict) {
    if b.lockedUntil > now then (b, Locked)
    else
      var kept := Recent(b.attempts, now - l.window);
      if |kept| >= l.maxAttempts then (Bucket(kept, now + l.lockout), Exceeded)
      else (b.(attempts := kept), Accepted)
  }

  function Record(b: Bucket, l: Limits, now: real): Bucket {
    b.(attempts := Recent(b.attempts, now - l.window) + [now])
  }

  function CheckAndRecord(b: Bucket, l: Limits, now: real): (Bucket, Verdict) {
    var (b1, v) := Check(b, l, now);
    (if v.Accepted? then Record(b1, l, now) else b1, v)
  }

  // ---------------------------------------------------------------- the bucket that remembers

  function FullCheck(b: Bucket, l: Limits, now: real): (Bucket, Verdict) {
    if b.lockedUntil > now then (b, Locked)
    else if |Recent(b.attempts, now - l.window)| >= l.maxAttempts then (b.(lockedUntil := now + l.lockout), Exceeded)
    else (b, Accepted)
  }

  function FullRecord(b: Bucket, now: real): Bucket {
    b.(attempts := b.attempts + [now])
  }

  function FullCheckAndRecord(b: Bucket, l: Limits, now: real): (Bucket, Verdict) {
    var (b1, v) := FullCheck(b, l, now);
    (if v.Accepted? then FullRecord(b1, now) else b1, v)
  }

  // ---------------------------------------------------------------- simulation

  lemma {:induction false} RecentOfRecent(s: seq<real>, older: real, newer: real)
    requires older <= newer
    ensures Recent(Recent(s, older), newer) == Recent(s, newer)
  {
    if s != [] {
      var front, last := s[..|s| - 1], s[|s| - 1];
      RecentOfRecent(front, older, newer);
      if last >= older {
        RecentAppend(Recent(front, older), last, newer);
      } else {
        assert Recent(s, older) == Recent(front, older);
        assert Recent(s, newer) == Recent(front, newer);
      }
    }
  }

  lemma RecentAppend(s: seq<real>, x: real, since: real)
    ensures Recent(s + [x], since) == Recent(s, since) + if x >= since then [x] else []
  {}

  /** The two buckets show the same window at every time from `clock` on, and the same lock. */
  ghost predicate Similar(b: Bucket, full: Bucket, l: Limits, clock: real) {
    && b.lockedUntil == full.lockedUntil
    && forall since :: since >= clock - l.window ==> SameSince(b.attempts, full.attempts, since)
  }

  predicate SameSince(a: seq<real>, b: seq<real>, since: real) {
    Recent(a, since) == Recent(b, since)
  }

  lemma PruneSimilar(b: Bucket, full: Bucket, l: Limits, clock: real, now: real)
    requires Similar(b, full, l, clock) && clock <= now
    ensures Similar(b.(attempts := Recent(b.attempts, now - l.window)), full, l, now)
  {
    var kept := Recent(b.attempts, now - l.window);
    forall since | since >= now - l.window ensures SameSince(kept, full.attempts, since) {
      RecentOfRecent(b.attempts, now - l.window, since);
      assert SameSince(b.attempts, full.attempts, since);
    }
  }

  lemma CheckSimilar(b: Bucket, full: Bucket, l: Limits, clock: real, now: real)
    requires Similar(b, full, l, clock) && clock <= now
    ensures Check(b, l, now).1 == FullCheck(full, l, now).1
    ensures Similar(Check(b, l, now).0, FullCheck(full, l, now).0, l, now)
  {
    PruneSimilar(b, full, l, clock, now);
    assert SameSince(b.attempts, full.attempts, now - l.window);
  }

  lemma RecordSimilar(b: Bucket, full: Bucket, l: Limits, clock: real, now: real)
    requires Similar(b, full, l, clock) && clock <= now
    ensures Similar(Record(b, l, now), FullRecord(full, now), l, now)
  {
    PruneSimilar(b, full, l, clock, now);
    var kept := Recent(b.attempts, now - l.window);
    forall since | since >= now - l.window ensures SameSince(kept + [now], full.attempts + [now], since) {
      assert SameSince(b.(attempts := kept).attempts, full.attempts, since);
      RecentAppend(kept, now, since);
      RecentAppend(full.attempts, now, since);
    }
  }

  // ---------------------------------------------------------------- runs

  datatype Call =
    | DoCheck(key: string, now: real)
    | DoRecord(key: string, now: real)
    | DoBoth(key: string, now: real)
    | DoClear(key: string)
    | DoClearAll

  type Buckets = map<string, Bucket>

  function BucketOf(bs: Buckets, key: string): Bucket {
    if key in bs then bs[key] else Fresh
  }

  function Step(bs: Buckets, l: Limits, c: Call): (Buckets, Option<Verdict>) {
    match c
    case DoCheck(key, now) =>
      var (b, v) := Check(BucketOf(bs, key), l, now); (bs[key := b], Some(v))
    case DoRecord(key, now) => (bs[key := Record(BucketOf(bs, key), l, now)], None)
    case DoBoth(key, now) =>
      var (b, v) := CheckAndRecord(BucketOf(bs, key), l, now); (bs[key := b], Some(v))
    case DoClear(key) => (bs - {key}, None)
    case DoClearAll => (map[], None)
  }

  function FullStep(bs: Buckets, l: Limits, c: Call): (Buckets, Option<Verdict>) {
    match c
    case DoCheck(key, now) =>
      var (b, v) := FullCheck(BucketOf(bs, key), l, now); (bs[key := b], Some(v))
    case DoRecord(key, now) => (bs[key := FullRecord(BucketOf(bs, key), now)], None)
    case DoBoth(key, now) =>
      var (b, v) := FullCheckAndRecord(BucketOf(bs, key), l, now); (bs[key := b], Some(v))
    case DoClear(key) => (bs - {key}, None)
    case DoClearAll => (map[], None)
  }

  function Verdicts(bs: Buckets, l: Limits, calls: seq<Call>): seq<Option<Verdict>>
    decreases |calls|
  {
    if calls == [] then [] else [Step(bs, l, calls[0]).1] + Verdicts(Step(bs, l, calls[0]).0, l, calls[1..])
  }

  function FullVerdicts(bs: Buckets, l: Limits, calls: seq<Call>): seq<Option<Verdict>>
    decreases |calls|
  {
    if calls == [] then [] else [FullStep(bs, l, calls[0]).1] + FullVerdicts(FullStep(bs, l, calls[0]).0, l, calls[1..])
  }

  function TimeOf(c: Call, otherwise: real): real {
    match c
    case DoCheck(_, now) => now
    case DoRecord(_, now) => now
    case DoBoth(_, now) => now
    case _ => otherwise
  }

  /** The clock readings of the calls never go back. */
  predicate Timely(calls: seq<Call>, clock: real)
    decreases |calls|
  {
    calls == [] || (clock <= TimeOf(calls[0], clock) && Timely(calls[1..], TimeOf(calls[0], clock)))
  }

  ghost predicate AllSimilar(bs: Buckets, full: Buckets, l: Limits, clock: real) {
    forall key :: Similar(BucketOf(bs, key), BucketOf(full, key), l, clock)
  }

  lemma Later(b: Bucket, full: Bucket, l: Limits, clock: real, now: real)
    requires Similar(b, full, l, clock) && clock <= now
    ensures Similar(b, full, l, now)
  {}

  lemma StepSimilar(bs: Buckets, full: Buckets, l: Limits, c: Call, clock: real)
    requires AllSimilar(bs, full, l, clock) && clock <= TimeOf(c, clock)
    ensures Step(bs, l, c).1 == FullStep(full, l, c).1
    ensures AllSimilar(Step(bs, l, c).0, FullStep(full, l, c).0, l, TimeOf(c, clock))
  {
    var now := TimeOf(c, clock);
    if c.DoCheck? || c.DoRecord? || c.DoBoth? {
      var b, f := BucketOf(bs, c.key), BucketOf(full, c.key);
      assert Similar(b, f, l, clock);
      CheckSimilar(b, f, l, clock, now);
      RecordSimilar(b, f, l, clock, now);
      RecordSimilar(Check(b, l, now).0, FullCheck(f, l, now).0, l, now, now);
    }
    forall key
      ensures Similar(BucketOf(Step(bs, l, c).0, key), BucketOf(FullStep(full, l, c).0, key), l, now)
    {
      assert Similar(BucketOf(bs, key), BucketOf(full, key), l, clock);
      Later(BucketOf(bs, key), BucketOf(full, key), l, clock, now);
    }
  }

  lemma {:induction false} RunSimilar(bs: Buckets, full: Buckets, l: Limits, calls: seq<Call>, clock: real)
    requires AllSimilar(bs, full, l, clock) && Timely(calls, clock)
    ensures Verdicts(bs, l, calls) == FullVerdicts(full, l, calls)
    decreases |calls|
  {
    if calls != [] {
      StepSimilar(bs, full, l, calls[0], clock);
      RunSimilar(Step(bs, l, calls[0]).0, FullStep(full, l, calls[0]).0, l, calls[1..], TimeOf(calls[0], clock));
    }
  }

  /**
   Under a non-decreasing clock, forgetting is invisible: over any run on any keys, the limiter accepts,
   rejects and locks exactly as one that remembers every attempt.
   */
  lemma ForgettingIsInvisible(l: Limits, calls: seq<Call>, clock: real)
    requires Timely(calls, clock)
    ensures Verdicts(map[], l, calls) == FullVerdicts(map[], l, calls)
  {
    RunSimilar(map[], map[], l, calls, clock);
  }

  // ---------------------------------------------------------------- the verdicts, from the calls before

  /** The buckets after these calls, from none. */
  function After(l: Limits, calls: seq<Call>): Buckets {
    if calls == [] then map[] else Step(After(l, calls[..|calls| - 1]), l, calls[|calls| - 1]).0
  }

  function VerdictAt(l: Limits, calls: seq<Call>, n: nat): Option<Verdict>
    requires n < |calls|
  {
    Step(After(l, calls[..n]), l, calls[n]).1
  }

  predicate Asks(c: Call, key: string) {
    (c.DoCheck? || c.DoBoth?) && c.key == key
  }

  /** The call counts as an attempt under the key. */
  predicate IsAttempt(c: Call, verdict: Option<Verdict>, key: string) {
    (c.DoRecord? && c.key == key) || (c.DoBoth? && c.key == key && verdict == Some(Accepted))
  }

  /** How many attempts since a time the first n calls have made under a key, from the last time it was cleared. */
  function Attempts(l: Limits, calls: seq<Call>, n: nat, key: string, since: real): nat
    requires n <= |calls|
  {
    if n == 0 then 0
    else
      var c := calls[n - 1];
      if c.DoClearAll? || c == DoClear(key) then 0
      else Attempts(l, calls, n - 1, key, since) + if IsAttempt(c, VerdictAt(l, calls, n - 1), key) && c.now >= since then 1 else 0
  }

  /** When the last lockout under the key ends, or the beginning of time if there is none since it was last cleared. */
  function LockEnd(l: Limits, calls: seq<Call>, n: nat, key: string): real
    requires n <= |calls|
  {
    if n == 0 then 0.0
    else
      var c := calls[n - 1];
      if c.DoClearAll? || c == DoClear(key) then 0.0
      else if Asks(c, key) && VerdictAt(l, calls, n - 1) == Some(Exceeded) then c.now + l.lockout
      else LockEnd(l, calls, n - 1, key)
  }

  /** The bucket counts as many attempts since any time that can matter from `clock` on. */
  ghost predicate CountsAlike(attempts: seq<real>, count: real -> nat, l: Limits, clock: real) {
    forall since {:trigger count(since)} :: since >= clock - l.window ==> |Recent(attempts, since)| == count(since)
  }

  lemma PrunedCounts(attempts: seq<real>, count: real -> nat, l: Limits, clock: real, now: real)
    requires CountsAlike(attempts, count, l, clock) && clock <= now
    ensures CountsAlike(Recent(attempts, now - l.window), count, l, now)
  {
    forall since | since >= now - l.window ensures |Recent(Recent(attempts, now - l.window), since)| == count(since) {
      RecentOfRecent(attempts, now - l.window, since);
    }
  }

  lemma RecordedCounts(attempts: seq<real>, count: real -> nat, more: real -> nat, l: Limits, now: real)
    requires CountsAlike(attempts, count, l, now)
    requires forall since {:trigger more(since)} :: more(since) == count(since) + if now >= since then 1 else 0
    ensures CountsAlike(attempts + [now], more, l, now)
  {
    forall since | since >= now - l.window ensures |Recent(attempts + [now], since)| == more(since) {
      assert |Recent(attempts, since)| == count(since);
      RecentAppend(attempts, now, since);
    }
  }

  lemma SameCounts(attempts: seq<real>, count: real -> nat, same: real -> nat, l: Limits, clock: real, now: real)
    requires CountsAlike(attempts, count, l, clock) && clock <= now
    requires forall since {:trigger same(since)} :: same(since) == count(since)
    ensures CountsAlike(attempts, same, l, now)
  {}

  ghost predicate Matches(b: Bucket, lockEnd: real, count: real -> nat, l: Limits, clock: real) {
    b.lockedUntil == lockEnd && CountsAlike(b.attempts, count, l, clock)
  }

  /** What a check answers and leaves, from the lock and the count. */
  lemma CheckMatches(b: Bucket, lockEnd: real, count: real -> nat, l: Limits, clock: real, now: real)
    requires Matches(b, lockEnd, count, l, clock) && clock <= now
    ensures Check(b, l, now).1 ==
              if lockEnd > now then Locked else if count(now - l.window) >= l.maxAttempts then Exceeded else Accepted
    ensures Matches(Check(b, l, now).0, if Check(b, l, now).1.Exceeded? then now + l.lockout else lockEnd, count, l, now)
  {
    PrunedCounts(b.attempts, count, l, clock, now);
    assert |Recent(b.attempts, now - l.window)| == count(now - l.window);
  }

  lemma RecordMatches(b: Bucket, lockEnd: real, count: real -> nat, more: real -> nat, l: Limits, clock: real, now: real)
    requires Matches(b, lockEnd, count, l, clock) && clock <= now
    requires forall since {:trigger more(since)} :: more(since) == count(since) + if now >= since then 1 else 0
    ensures Matches(Record(b, l, now), lockEnd, more, l, now)
  {
    PrunedCounts(b.attempts, count, l, clock, now);
    RecordedCounts(Recent(b.attempts, now - l.window), count, more, l, now);
  }

  lemma StepMatches(bs: Buckets, l: Limits, c: Call, key: string, lockEnd: real, count: real -> nat, clock: real,
                    lockEnd': real, count': real -> nat)
    requires Matches(BucketOf(bs, key), lockEnd, count, l, clock) && clock <= TimeOf(c, clock)
    requires var verdict := Step(bs, l, c).1;
             if c.DoClearAll? || c == DoClear(key) then lockEnd' == 0.0 && forall since {:trigger count'(since)} :: count'(since) == 0
             else
               && lockEnd' == (if Asks(c, key) && verdict == Some(Exceeded) then c.now + l.lockout else lockEnd)
               && forall since {:trigger count'(since)} ::
                    count'(since) == count(since) + if IsAttempt(c, verdict, key) && c.now >= since then 1 else 0
    ensures Matches(BucketOf(Step(bs, l, c).0, key), lockEnd', count', l, TimeOf(c, clock))
  {
    var b, now := BucketOf(bs, key), TimeOf(c, clock);
    if c.DoCheck? && c.key == key {
      CheckMatches(b, lockEnd, count, l, clock, now);
      SameCounts(Check(b, l, now).0.attempts, count, count', l, now, now);
    } else if c.DoRecord? && c.key == key {
      RecordMatches(b, lockEnd, count, count', l, clock, now);
    } else if c.DoBoth? && c.key == key {
      CheckMatches(b, lockEnd, count, l, clock, now);
      var (checked, verdict) := Check(b, l, now);
      if verdict.Accepted? {
        RecordMatches(checked, lockEnd, count, count', l, now, now);
      } else {
        SameCounts(checked.attempts, count, count', l, now, now);
      }
    } else if !(c.DoClearAll? || c == DoClear(key)) {
      SameCounts(b.attempts, count, count', l, clock, now);
    }
  }

  /** The clock after the first n calls. */
  function ClockAfter(calls: seq<Call>, n: nat, clock: real): real
    requires n <= |calls|
  {
    if n == 0 then clock else TimeOf(calls[n - 1], ClockAfter(calls, n - 1, clock))
  }

  lemma {:induction false} ClockFromFirst(calls: seq<Call>, n: nat, clock: real)
    requires 0 < n <= |calls|
    ensures ClockAfter(calls, n, clock) == ClockAfter(calls[1..], n - 1, TimeOf(calls[0], clock))
  {
    if n > 1 {
      ClockFromFirst(calls, n - 1, clock);
    }
  }

  lemma {:induction false} TimelyAt(calls: seq<Call>, n: nat, clock: real)
    requires Timely(calls, clock) && n < |calls|
    ensures ClockAfter(calls, n, clock) <= TimeOf(calls[n], ClockAfter(calls, n, clock))
    decreases n
  {
    if n > 0 {
      TimelyAt(calls[1..], n - 1, TimeOf(calls[0], clock));
      ClockFromFirst(calls, n, clock);
    }
  }

  lemma AfterStep(l: Limits, calls: seq<Call>, n: nat)
    requires n < |calls|
    ensures After(l, calls[..n + 1]) == Step(After(l, calls[..n]), l, calls[n]).0
  {
    assert calls[..n + 1][..n] == calls[..n];
  }

  lemma {:induction false} MatchesAlong(l: Limits, calls: seq<Call>, clock: real, key: string, n: nat)
    requires Timely(calls, clock) && n <= |calls|
    ensures Matches(BucketOf(After(l, calls[..n]), key), LockEnd(l, calls, n, key), since => Attempts(l, calls, n, key, since), l,
                    ClockAfter(calls, n, clock))
  {
    if n > 0 {
      MatchesAlong(l, calls, clock, key, n - 1);
      TimelyAt(calls, n - 1, clock);
      AfterStep(l, calls, n - 1);
      StepMatches(After(l, calls[..n - 1]), l, calls[n - 1], key, LockEnd(l, calls, n - 1, key),
                  since => Attempts(l, calls, n - 1, key, since), ClockAfter(calls, n - 1, clock), LockEnd(l, calls, n, key),
                  since => Attempts(l, calls, n, key, since));
    }
  }

  /**
   Every verdict, from the calls before it: locked until the last lockout since the key was cleared is over; otherwise
   refused, and locked again, exactly if the attempts made since one window ago have reached the limit.
   */
  lemma VerdictExactly(l: Limits, calls: seq<Call>, clock: real, key: string, n: nat)
    requires Timely(calls, clock) && n < |calls| && Asks(calls[n], key)
    ensures VerdictAt(l, calls, n) ==
              if LockEnd(l, calls, n, key) > calls[n].now then Some(Locked)
              else if Attempts(l, calls, n, key, calls[n].now - l.window) >= l.maxAttempts then Some(Exceeded)
              else Some(Accepted)
  {
    MatchesAlong(l, calls, clock, key, n);
    TimelyAt(calls, n, clock);
    CheckMatches(BucketOf(After(l, calls[..n]), key), LockEnd(l, calls, n, key), since => Attempts(l, calls, n, key, since), l,
                 ClockAfter(calls, n, clock), calls[n].now);
  }

  // ---------------------------------------------------------------- how many get through

  predicate Clears(c: Call, key: string) {
    c.DoClearAll? || (c.DoClear? && c.key == key)
  }

  predicate Admits(bs: Buckets, l: Limits, c: Call, key: string) {
    c.DoBoth? && c.key == key && Step(bs, l, c).1 == Some(Accepted)
  }

  /** The times at which `check_and_record` succeeded for one key. */
  function Admitted(bs: Buckets, l: Limits, calls: seq<Call>, key: string): seq<real>
    decreases |calls|
  {
    if calls == [] then []
    else (if Admits(bs, l, calls[0], key) then [calls[0].now] else []) + Admitted(Step(bs, l, calls[0]).0, l, calls[1..], key)
  }

  /** No more than the limit in any closed interval of one window. */
  ghost predicate Bounded(times: seq<real>, l: Limits) {
    forall i, j :: 0 <= i <= j < |times| && times[j] - times[i] <= l.window ==> j - i + 1 <= l.maxAttempts
  }

  /** The bucket still counts every admitted attempt that can matter from `clock` on. */
  ghost predicate Covers(b: Bucket, times: seq<real>, l: Limits, clock: real) {
    forall since :: since >= clock - l.window ==> CoveredSince(b.attempts, times, since)
  }

  predicate CoveredSince(attempts: seq<real>, times: seq<real>, since: real) {
    |Recent(times, since)| <= |Recent(attempts, since)|
  }

  lemma {:induction false} RecentSuffix(s: seq<real>, since: real, i: nat)
    requires i <= |s| && forall k :: i <= k < |s| ==> s[k] >= since
    ensures |Recent(s, since)| >= |s| - i
  {
    if i < |s| {
      RecentSuffix(s[..|s| - 1], since, i);
    }
  }

  lemma AdmitBounded(b: Bucket, times: seq<real>, l: Limits, clock: real, now: real)
    requires NonDecreasing(times) && Bounded(times, l) && Covers(b, times, l, clock) && clock <= now
    requires Check(b, l, now).1.Accepted?
    requires forall k :: 0 <= k < |times| ==> times[k] <= now
    ensures NonDecreasing(times + [now]) && Bounded(times + [now], l)
  {
    var n := |times|;
    forall i | 0 <= i < n && now - times[i] <= l.window ensures n - i + 1 <= l.maxAttempts {
      RecentSuffix(times, now - l.window, i);
      assert CoveredSince(b.attempts, times, now - l.window);
    }
  }

  lemma PruneCovers(b: Bucket, times: seq<real>, l: Limits, clock: real, now: real)
    requires Covers(b, times, l, clock) && clock <= now
    ensures Covers(b.(attempts := Recent(b.attempts, now - l.window)), times, l, now)
  {
    var kept := Recent(b.attempts, now - l.window);
    forall since | since >= now - l.window ensures CoveredSince(kept, times, since) {
      RecentOfRecent(b.attempts, now - l.window, since);
      assert CoveredSince(b.attempts, times, since);
    }
  }

  lemma CheckCovers(b: Bucket, times: seq<real>, l: Limits, clock: real, now: real)
    requires Covers(b, times, l, clock) && clock <= now
    ensures Covers(Check(b, l, now).0, times, l, now)
  {
    PruneCovers(b, times, l, clock, now);
  }

  /** Recording keeps the cover, whether or not the recorded attempt was an admitted one. */
  lemma RecordCovers(b: Bucket, times: seq<real>, l: Limits, clock: real, now: real)
    requires Covers(b, times, l, clock) && clock <= now
    ensures Covers(Record(b, l, now), times, l, now)
    ensures Covers(Record(b, l, now), times + [now], l, now)
  {
    PruneCovers(b, times, l, clock, now);
    var kept := Recent(b.attempts, now - l.window);
    forall since | since >= now - l.window
      ensures CoveredSince(kept + [now], times, since) && CoveredSince(kept + [now], times + [now], since)
    {
      assert CoveredSince(b.(attempts := kept).attempts, times, since);
      RecordCoversSince(kept, times, now, since);
    }
  }

  lemma RecordCoversSince(kept: seq<real>, times: seq<real>, now: real, since: real)
    requires CoveredSince(kept, times, since)
    ensures CoveredSince(kept + [now], times, since) && CoveredSince(kept + [now], times + [now], since)
  {
    RecentAppend(kept, now, since);
    RecentAppend(times, now, since);
  }

  lemma CoverStep(bs: Buckets, l: Limits, c: Call, clock: real, key: string, times: seq<real>)
    requires Covers(BucketOf(bs, key), times, l, clock) && clock <= TimeOf(c, clock) && !Clears(c, key)
    ensures Covers(BucketOf(Step(bs, l, c).0, key), times + (if Admits(bs, l, c, key) then [c.now] else []), l, TimeOf(c, clock))
  {
    var b, now := BucketOf(bs, key), TimeOf(c, clock);
    assert times + [] == times;
    if c.DoCheck? && c.key == key {
      CheckCovers(b, times, l, clock, now);
    } else if c.DoRecord? && c.key == key {
      RecordCovers(b, times, l, clock, now);
    } else if c.DoBoth? && c.key == key {
      CheckCovers(b, times, l, clock, now);
      RecordCovers(Check(b, l, now).0, times, l, now, now);
    } else {
      assert BucketOf(Step(bs, l, c).0, key) == b;
    }
  }

  lemma {:induction false} AdmittedBounded(bs: Buckets, l: Limits, calls: seq<Call>, clock: real, key: string, times: seq<real>)
    requires Timely(calls, clock) && forall i :: 0 <= i < |calls| ==> !Clears(calls[i], key)
    requires NonDecreasing(times) && Bounded(times, l) && Covers(BucketOf(bs, key), times, l, clock)
    requires forall k :: 0 <= k < |times| ==> times[k] <= clock
    ensures Bounded(times + Admitted(bs, l, calls, key), l)
    decreases |calls|
  {
    if calls == [] {
      assert times + [] == times;
    } else {
      var c, now := calls[0], TimeOf(calls[0], clock);
      var added := if Admits(bs, l, c, key) then [c.now] else [];
      if added != [] {
        AdmitBounded(BucketOf(bs, key), times, l, clock, now);
      }
      CoverStep(bs, l, c, clock, key, times);
      var bs', rest := Step(bs, l, c).0, calls[1..];
      assert times + [] == times;
      AdmittedBounded(bs', l, rest, now, key, times + added);
      assert times + (added + Admitted(bs', l, rest, key)) == times + added + Admitted(bs', l, rest, key);
    }
  }

  /**
   Starting fresh and never cleared for a key, at most `max_attempts` calls of `check_and_record` succeed
   for it in any closed interval of `window_seconds`, whatever else is checked or recorded meanwhile.
   */
  lemma AtMostTheLimit(l: Limits, calls: seq<Call>, clock: real, key: string, i: nat, j: nat)
    requires Timely(calls, clock) && forall n :: 0 <= n < |calls| ==> !Clears(calls[n], key)
    requires i <= j < |Admitted(map[], l, calls, key)|
    requires Admitted(map[], l, calls, key)[j] - Admitted(map[], l, calls, key)[i] <= l.window
    ensures j - i + 1 <= l.maxAttempts
  {
    AdmittedBounded(map[], l, calls, clock, key, []);
    assert [] + Admitted(map[], l, calls, key) == Admitted(map[], l, calls, key);
  }

  // ---------------------------------------------------------------- the limiter object

  class RateLimiter {
    const limits: Limits
    var buckets: Buckets

    constructor (limits: Limits)
      ensures this.limits == limits && buckets == map[]
    {
      this.limits, buckets := limits, map[];
    }

    /** Drops the attempts that have left the window. */
    method Pruned(attempts: seq<real>, now: real) returns (kept: seq<real>)
      ensures kept == Recent(attempts, now - limits.window)
    {
      kept := [];
      for i := 0 to |attempts|
        invariant kept == Recent(attempts[..i], now - limits.window)
      {
        assert attempts[..i + 1] == attempts[..i] + [attempts[i]];
        RecentAppend(attempts[..i], attempts[i], now - limits.window);
        if attempts[i] >= now - limits.window {
          kept := kept + [attempts[i]];
        }
      }
      assert attempts[..|attempts|] == attempts;
    }

    method CheckKey(key: string, now: real) returns (v: Verdict)
      modifies this
      ensures (buckets, Some(v)) == Step(old(buckets), limits, DoCheck(key, now))
    {
      var b := BucketOf(buckets, key);
      buckets := buckets[key := b];
      if b.lockedUntil > now {
        return Locked;
      }
      var kept := Pruned(b.attempts, now);
      b := b.(attempts := kept);
      v := Accepted;
      if |kept| >= limits.maxAttempts {
        b := b.(lockedUntil := now + limits.lockout);
        v := Exceeded;
      }
      buckets := buckets[key := b];
      assert buckets == old(buckets)[key := b];
    }

    method RecordFailure(key: string, now: real)
      modifies this
      ensures (buckets, None) == Step(old(buckets), limits, DoRecord(key, now))
    {
      var b := BucketOf(buckets, key);
      var kept := Pruned(b.attempts, now);
      buckets := buckets[key := b.(attempts := kept + [now])];
    }

    method CheckAndRecordKey(key: string, now: real) returns (v: Verdict)
      modifies this
      ensures (buckets, Some(v)) == Step(old(buckets), limits, DoBoth(key, now))
    {
      v := CheckKey(key, now);
      if v.Accepted? {
        RecordFailure(key, now);
      }
      assert buckets == old(buckets)[key := CheckAndRecord(BucketOf(old(buckets), key), limits, now).0];
    }

    method Clear(key: string)
      modifies this
      ensures (buckets, None) == Step(old(buckets), limits, DoClear(key))
    {
      buckets := buckets - {key};
    }

    method ClearAll()
      modifies this
      ensures (buckets, None) == Step(old(buckets), limits, DoClearAll)
    {
      buckets := map[];
    }
  }
}
