/**
 The chat store of one session: messages and records keyed by id, each carrying a
 sequence number handed out by a persistent counter, and a pruner that runs on every save.
 */
module Chat {
  import opened Prelude

  const MAX_CHAT_TEXT_LENGTH := 0x10_0000
  const MAX_CHAT_MESSAGES := 80
  const MAX_CHAT_RECORDS := 140
  const CHAT_RETENTION_SECONDS: real := 259200.0

  datatype Role = User | Assistant | System
  datatype Status = Queued | Claimed | Streaming | Completed | Cancelled
  datatype RecordType = MessageRecord | Delta | StatusRecord | OtherRecord

  datatype Message = Message(
    id: string, sequence: int, role: Role, text: string, status: Status,
    clientId: Option<string>, createdAt: real, updatedAt: real,
    claimedAt: Option<real>, completedAt: Option<real>)

  datatype Record = Record(
    id: string, sequence: int, kind: RecordType, messageId: Option<string>, createdAt: real)

  datatype Store = Store(
    nextSequence: int, messages: map<string, Message>,
    nextRecordSequence: int, records: map<string, Record>)

  const EmptyStore := Store(1, map[], 1, map[])

  // ---------------------------------------------------------------- priority classes

  predicate StartsWith(s: string, prefix: string) {
    prefix <= s
  }

  predicate IsInterrupt(clientId: string) {
    StartsWith(clientId, "control_pause_") || StartsWith(clientId, "omnidoer_pause_")
  }

  function Priority(m: Message): int {
    var c := if m.clientId.Some? then m.clientId.value else "";
    if IsInterrupt(c) then 0
    else if StartsWith(c, "control_continue_") || StartsWith(c, "control_cli_") then 1
    else 2
  }

  // ---------------------------------------------------------------- newest-by-sequence selection

  predicate Distinct(keys: map<string, int>) {
    forall a, b :: a in keys && b in keys && keys[a] == keys[b] ==> a == b
  }

  predicate IsArgMax(keys: map<string, int>, m: string) {
    m in keys && forall k :: k in keys ==> keys[k] <= keys[m]
  }

  lemma {:induction false} ArgMaxExists(keys: map<string, int>)
    requires keys != map[]
    ensures exists m :: IsArgMax(keys, m)
    decreases |keys|
  {
    var k :| k in keys;
    var rest := keys - {k};
    if rest == map[] {
      assert keys.Keys == rest.Keys + {k};
      assert IsArgMax(keys, k);
    } else {
      assert rest.Keys == keys.Keys - {k};
      ArgMaxExists(rest);
      var m :| IsArgMax(rest, m);
      var best := if keys[k] >= keys[m] then k else m;
      assert forall x :: x in keys ==> x == k || x in rest;
      assert IsArgMax(keys, best);
    }
  }

  function ArgMax(keys: map<string, int>): (m: string)
    requires Distinct(keys)
    requires keys != map[]
    ensures IsArgMax(keys, m)
  {
    ArgMaxExists(keys);
    var m :| IsArgMax(keys, m);
    m
  }

  function Drop(keys: map<string, int>, m: string): (rest: map<string, int>)
    requires Distinct(keys) && m in keys
    ensures rest.Keys == keys.Keys - {m} && |rest| == |keys| - 1
    ensures forall k :: k in rest ==> rest[k] == keys[k]
    ensures Distinct(rest)
  {
    var rest := map k | k in keys && k != m :: keys[k];
    assert rest.Keys == keys.Keys - {m};
    rest
  }

  /** Ids ordered by increasing sequence number. */
  function SortedIds(keys: map<string, int>): seq<string>
    requires Distinct(keys)
    decreases |keys|
  {
    if keys == map[] then []
    else
      var m := ArgMax(keys);
      SortedIds(Drop(keys, m)) + [m]
  }

  /** Python's `s[-n:]` for positive n. */
  function LastN<T>(s: seq<T>, n: nat): seq<T> {
    if |s| <= n then s else s[|s| - n..]
  }

  function Newest(keys: map<string, int>, n: nat): set<string>
    requires Distinct(keys)
  {
    set k | k in LastN(SortedIds(keys), n)
  }

  predicate Increasing(s: seq<string>, keys: map<string, int>) {
    forall i, j :: 0 <= i < j < |s| ==> s[i] in keys && s[j] in keys && keys[s[i]] < keys[s[j]]
  }

  lemma IncreasingExtend(s: seq<string>, rest: map<string, int>, keys: map<string, int>, m: string)
    requires Distinct(keys) && IsArgMax(keys, m) && rest == Drop(keys, m)
    requires Increasing(s, rest) && forall k :: k in s ==> k in rest
    ensures Increasing(s + [m], keys)
  {}

  /** The ids of the map, once each, in increasing sequence order. */
  ghost predicate IsSorting(keys: map<string, int>, s: seq<string>) {
    && (forall k :: k in s <==> k in keys)
    && |s| == |keys|
    && Increasing(s, keys)
  }

  lemma {:induction false} SortedIdsSorts(keys: map<string, int>)
    requires Distinct(keys)
    ensures IsSorting(keys, SortedIds(keys))
    decreases |keys|
  {
    if keys != map[] {
      var m := ArgMax(keys);
      var rest := Drop(keys, m);
      SortedIdsSorts(rest);
      var s := SortedIds(rest);
      assert SortedIds(keys) == s + [m];
      IncreasingExtend(s, rest, keys, m);
      assert IsSorting(keys, s + [m]);
    }
  }

  /** What it means to be the n newest: as many as possible, and newer than everything left out. */
  ghost predicate IsNewest(keys: map<string, int>, top: set<string>, n: nat) {
    && top <= keys.Keys
    && |top| == (if |keys| <= n then |keys| else n)
    && forall a, b :: a in top && b in keys && b !in top ==> keys[b] < keys[a]
  }

  lemma {:induction false} SeqSetSize<T>(s: seq<T>)
    requires forall i, j :: 0 <= i < j < |s| ==> s[i] != s[j]
    ensures |set x | x in s| == |s|
  {
    if s != [] {
      var front := s[..|s| - 1];
      SeqSetSize(front);
      assert (set x | x in s) == (set x | x in front) + {s[|s| - 1]};
    }
  }

  lemma SuffixNewer(keys: map<string, int>, s: seq<string>, d: nat, a: string, b: string)
    requires Increasing(s, keys) && d <= |s|
    requires a in s[d..] && b in s && b !in s[d..]
    ensures a in keys && b in keys && keys[b] < keys[a]
  {}

  lemma SuffixDistinct(keys: map<string, int>, s: seq<string>, d: nat, i: nat, j: nat)
    requires Increasing(s, keys) && d <= i < j < |s|
    ensures s[d..][i - d] != s[d..][j - d]
  {}

  lemma SuffixSize(keys: map<string, int>, s: seq<string>, d: nat)
    requires Increasing(s, keys) && d <= |s|
    ensures |set x | x in s[d..]| == |s| - d
  {
    var l := s[d..];
    forall i, j | 0 <= i < j < |l| ensures l[i] != l[j] {
      SuffixDistinct(keys, s, d, d + i, d + j);
    }
    SeqSetSize(l);
  }

  lemma SuffixIsNewest(keys: map<string, int>, s: seq<string>, n: nat)
    requires IsSorting(keys, s)
    ensures IsNewest(keys, (set x | x in LastN(s, n)), n)
  {
    var d := if |s| <= n then 0 else |s| - n;
    var l := s[d..];
    assert LastN(s, n) == l;
    SuffixSize(keys, s, d);
    forall a, b | a in l && b in keys && b !in l ensures keys[b] < keys[a] {
      SuffixNewer(keys, s, d, a, b);
    }
  }

  /** Sorting by sequence and slicing off the last n selects exactly the n newest. */
  lemma NewestIsNewest(keys: map<string, int>, n: nat)
    requires Distinct(keys)
    ensures IsNewest(keys, Newest(keys, n), n)
  {
    SortedIdsSorts(keys);
    SuffixIsNewest(keys, SortedIds(keys), n);
  }

  lemma NewestUnique(keys: map<string, int>, t: set<string>, u: set<string>, n: nat)
    requires IsNewest(keys, t, n) && IsNewest(keys, u, n)
    ensures t == u
  {
    if t <= u {
      SubsetSize(t, u);
    } else {
      var a :| a in t && a !in u;
      assert u <= t;
      SubsetSize(u, t);
    }
  }

  /** Dropping only entries outside the selection leaves the selection alone. */
  lemma NewestOfSubset(keys: map<string, int>, sub: map<string, int>, n: nat)
    requires Distinct(keys)
    requires SubMap(sub, keys)
    requires Newest(keys, n) <= sub.Keys
    ensures Distinct(sub)
    ensures Newest(sub, n) == Newest(keys, n)
  {
    var top := Newest(keys, n);
    NewestIsNewest(keys, n);
    SubsetSize(top, sub.Keys);
    SubsetSize(sub.Keys, keys.Keys);
    assert IsNewest(sub, top, n);
    NewestIsNewest(sub, n);
    NewestUnique(sub, top, Newest(sub, n), n);
  }

  ghost predicate SubMap<K, V>(small: map<K, V>, big: map<K, V>) {
    small.Keys <= big.Keys && forall k :: k in small ==> small[k] == big[k]
  }

  // ---------------------------------------------------------------- validity

  function MessageKeys(ms: map<string, Message>): map<string, int> {
    map k | k in ms :: ms[k].sequence
  }

  function RecordKeys(rs: map<string, Record>): map<string, int> {
    map k | k in rs :: rs[k].sequence
  }

  predicate ValidMessages(ms: map<string, Message>) {
    && (forall k :: k in ms ==> ms[k].id == k)
    && Distinct(MessageKeys(ms))
  }

  predicate ValidRecords(rs: map<string, Record>) {
    && (forall k :: k in rs ==> rs[k].id == k)
    && Distinct(RecordKeys(rs))
  }

  predicate Valid(s: Store) {
    && ValidMessages(s.messages)
    && ValidRecords(s.records)
    && (forall k :: k in s.messages ==> 1 <= s.messages[k].sequence < s.nextSequence)
    && (forall k :: k in s.records ==> 1 <= s.records[k].sequence < s.nextRecordSequence)
    && 1 <= s.nextSequence && 1 <= s.nextRecordSequence
    && "" !in s.messages
  }

  // ---------------------------------------------------------------- pruning

  predicate IsActive(m: Message) {
    m.status == Queued || m.status == Streaming
  }

  function ActiveIds(ms: map<string, Message>): set<string> {
    set k | k in ms && IsActive(ms[k])
  }

  function AgedMessages(ms: map<string, Message>, cutoff: real): map<string, Message> {
    map k | k in ms && (k in ActiveIds(ms) || MaxReal(ms[k].createdAt, ms[k].updatedAt) >= cutoff) :: ms[k]
  }

  /** A record's `message_id` counts only when it is a non-empty string. */
  predicate Refers(r: Record, id: string) {
    r.messageId == Some(id) && id != ""
  }

  function AgedRecords(rs: map<string, Record>, active: set<string>, cutoff: real): map<string, Record> {
    map k | k in rs && ((rs[k].messageId.Some? && rs[k].messageId.value != "" && rs[k].messageId.value in active)
                        || rs[k].createdAt >= cutoff) :: rs[k]
  }

  function ReferencedIds(rs: map<string, Record>): set<string> {
    set k | k in rs && rs[k].messageId.Some? && rs[k].messageId.value != "" :: rs[k].messageId.value
  }

  function Restrict<V>(m: map<string, V>, keep: set<string>): (r: map<string, V>)
    ensures r.Keys == m.Keys * keep
    ensures forall k :: k in r ==> r[k] == m[k]
  {
    map k | k in m && k in keep :: m[k]
  }

  function PruneRecords(rs: map<string, Record>, active: set<string>, cutoff: real): map<string, Record>
    requires ValidRecords(rs)
  {
    var aged := AgedRecords(rs, active, cutoff);
    AgedRecordsValid(rs, active, cutoff);
    Restrict(aged, Newest(RecordKeys(aged), MAX_CHAT_RECORDS))
  }

  lemma AgedRecordsValid(rs: map<string, Record>, active: set<string>, cutoff: real)
    requires ValidRecords(rs)
    ensures ValidRecords(AgedRecords(rs, active, cutoff))
  {
    var aged := AgedRecords(rs, active, cutoff);
    var kr, ka := RecordKeys(rs), RecordKeys(aged);
    forall a, b | a in ka && b in ka && ka[a] == ka[b] ensures a == b {
      assert a in kr && b in kr && kr[a] == kr[b];
    }
  }

  lemma AgedMessagesValid(ms: map<string, Message>, cutoff: real)
    requires ValidMessages(ms)
    ensures ValidMessages(AgedMessages(ms, cutoff))
  {
    var aged := AgedMessages(ms, cutoff);
    var km, ka := MessageKeys(ms), MessageKeys(aged);
    forall a, b | a in ka && b in ka && ka[a] == ka[b] ensures a == b {
      assert a in km && b in km && km[a] == km[b];
    }
  }

  function RetainedIds(aged: map<string, Message>, active: set<string>, referenced: set<string>): set<string>
    requires ValidMessages(aged)
  {
    active + referenced + Newest(MessageKeys(aged), MAX_CHAT_MESSAGES)
  }

  function PruneMessages(ms: map<string, Message>, referenced: set<string>, cutoff: real): map<string, Message>
    requires ValidMessages(ms)
  {
    var aged := AgedMessages(ms, cutoff);
    AgedMessagesValid(ms, cutoff);
    Restrict(aged, RetainedIds(aged, ActiveIds(ms), referenced))
  }

  function Prune(s: Store, now: real): Store
    requires ValidMessages(s.messages) && ValidRecords(s.records)
  {
    var cutoff := now - CHAT_RETENTION_SECONDS;
    var records := PruneRecords(s.records, ActiveIds(s.messages), cutoff);
    var messages := PruneMessages(s.messages, ReferencedIds(records), cutoff);
    s.(messages := messages, records := records)
  }

  lemma PruneKeeps(s: Store, now: real)
    requires Valid(s)
    ensures Valid(Prune(s, now))
    ensures SubMap(Prune(s, now).messages, s.messages)
    ensures SubMap(Prune(s, now).records, s.records)
    ensures forall k :: k in s.messages && IsActive(s.messages[k]) ==> k in Prune(s, now).messages
  {
    var p := Prune(s, now);
    var km, kp := MessageKeys(s.messages), MessageKeys(p.messages);
    forall a, b | a in kp && b in kp && kp[a] == kp[b] ensures a == b {
      assert a in km && b in km && km[a] == km[b];
    }
    var kr, kq := RecordKeys(s.records), RecordKeys(p.records);
    forall a, b | a in kq && b in kq && kq[a] == kq[b] ensures a == b {
      assert a in kr && b in kr && kr[a] == kr[b];
    }
    forall k | k in s.messages && IsActive(s.messages[k]) ensures k in p.messages {
      assert k in ActiveIds(s.messages);
      assert k in AgedMessages(s.messages, now - CHAT_RETENTION_SECONDS);
    }
  }

  /**
   Pruning is safe: every queued or streaming message survives, and so does every message that
   passes the age cutoff and is referenced by a record that is kept.
   */
  lemma PruneSafe(s: Store, now: real)
    requires Valid(s)
    ensures forall k :: k in s.messages && IsActive(s.messages[k]) ==> k in Prune(s, now).messages
    ensures forall r, k :: r in Prune(s, now).records && Refers(s.records[r], k) && k in s.messages
              && MaxReal(s.messages[k].createdAt, s.messages[k].updatedAt) >= now - CHAT_RETENTION_SECONDS
              ==> k in Prune(s, now).messages
  {}

  lemma {:induction false} ReferencedBound(rs: map<string, Record>)
    ensures |ReferencedIds(rs)| <= |rs|
    decreases |rs|
  {
    if rs == map[] {
      assert ReferencedIds(rs) == {};
    } else {
      var k :| k in rs;
      var rest := rs - {k};
      assert rest.Keys == rs.Keys - {k};
      ReferencedBound(rest);
      var extra := if rs[k].messageId.Some? then {rs[k].messageId.value} else {};
      assert ReferencedIds(rs) <= ReferencedIds(rest) + extra by {
        forall x | x in ReferencedIds(rs) ensures x in ReferencedIds(rest) + extra {
          var r :| r in rs && rs[r].messageId.Some? && rs[r].messageId.value != "" && rs[r].messageId.value == x;
          if r != k { assert r in rest && rest[r] == rs[r]; }
        }
      }
      SubsetSize(ReferencedIds(rs), ReferencedIds(rest) + extra);
    }
  }

  /** Pruning is bounded: at most 140 records, and at most 220 messages beyond the active ones. */
  lemma PruneBounded(s: Store, now: real)
    requires Valid(s)
    ensures |Prune(s, now).records| <= MAX_CHAT_RECORDS
    ensures |Prune(s, now).messages| <= |ActiveIds(s.messages)| + MAX_CHAT_RECORDS + MAX_CHAT_MESSAGES
  {
    var cutoff := now - CHAT_RETENTION_SECONDS;
    var p := Prune(s, now);
    var active := ActiveIds(s.messages);
    AgedRecordsValid(s.records, active, cutoff);
    AgedMessagesValid(s.messages, cutoff);
    var rk := RecordKeys(AgedRecords(s.records, active, cutoff));
    NewestIsNewest(rk, MAX_CHAT_RECORDS);
    SubsetSize(p.records.Keys, Newest(rk, MAX_CHAT_RECORDS));
    var mk := MessageKeys(AgedMessages(s.messages, cutoff));
    NewestIsNewest(mk, MAX_CHAT_MESSAGES);
    ReferencedBound(p.records);
    var recent := Newest(mk, MAX_CHAT_MESSAGES);
    var referenced := ReferencedIds(p.records);
    SubsetSize(p.messages.Keys, active + referenced + recent);
    assert |active + referenced + recent| <= |active| + |referenced| + |recent|;
  }

  lemma AgedRecordsAgain(rs: map<string, Record>, active: set<string>, cutoff: real, keep: set<string>)
    ensures var once := Restrict(AgedRecords(rs, active, cutoff), keep);
            AgedRecords(once, active, cutoff) == once
  {}

  lemma SelectRecordsAgain(aged: map<string, Record>, top: set<string>)
    requires ValidRecords(aged)
    requires top == Newest(RecordKeys(aged), MAX_CHAT_RECORDS)
    ensures ValidRecords(Restrict(aged, top))
    ensures Newest(RecordKeys(Restrict(aged, top)), MAX_CHAT_RECORDS) == top
  {
    var keys, once := RecordKeys(aged), Restrict(aged, top);
    NewestIsNewest(keys, MAX_CHAT_RECORDS);
    assert once.Keys == top;
    NewestOfSubset(keys, RecordKeys(once), MAX_CHAT_RECORDS);
  }

  /** A second pass over the records changes nothing. */
  lemma PruneRecordsIdempotent(rs: map<string, Record>, active: set<string>, cutoff: real)
    requires ValidRecords(rs)
    ensures ValidRecords(PruneRecords(rs, active, cutoff))
    ensures PruneRecords(PruneRecords(rs, active, cutoff), active, cutoff) == PruneRecords(rs, active, cutoff)
  {
    AgedRecordsValid(rs, active, cutoff);
    var aged := AgedRecords(rs, active, cutoff);
    var top := Newest(RecordKeys(aged), MAX_CHAT_RECORDS);
    SelectRecordsAgain(aged, top);
    AgedRecordsAgain(rs, active, cutoff, top);
    var once := Restrict(aged, top);
    assert Restrict(once, top) == once;
  }

  lemma AgedMessagesAgain(ms: map<string, Message>, cutoff: real, keep: set<string>)
    requires ActiveIds(ms) <= keep
    ensures var once := Restrict(AgedMessages(ms, cutoff), keep);
            ActiveIds(once) == ActiveIds(ms) && AgedMessages(once, cutoff) == once
  {}

  lemma SelectMessagesAgain(aged: map<string, Message>, retained: set<string>)
    requires ValidMessages(aged)
    requires Newest(MessageKeys(aged), MAX_CHAT_MESSAGES) <= retained
    ensures ValidMessages(Restrict(aged, retained))
    ensures Newest(MessageKeys(Restrict(aged, retained)), MAX_CHAT_MESSAGES) == Newest(MessageKeys(aged), MAX_CHAT_MESSAGES)
  {
    var keys := MessageKeys(aged);
    NewestIsNewest(keys, MAX_CHAT_MESSAGES);
    NewestOfSubset(keys, MessageKeys(Restrict(aged, retained)), MAX_CHAT_MESSAGES);
  }

  lemma PruneMessagesIdempotent(ms: map<string, Message>, referenced: set<string>, cutoff: real)
    requires ValidMessages(ms)
    ensures ActiveIds(PruneMessages(ms, referenced, cutoff)) == ActiveIds(ms)
    ensures ValidMessages(PruneMessages(ms, referenced, cutoff))
    ensures PruneMessages(PruneMessages(ms, referenced, cutoff), referenced, cutoff) == PruneMessages(ms, referenced, cutoff)
  {
    AgedMessagesValid(ms, cutoff);
    var aged, active := AgedMessages(ms, cutoff), ActiveIds(ms);
    var retained := RetainedIds(aged, active, referenced);
    SelectMessagesAgain(aged, retained);
    AgedMessagesAgain(ms, cutoff, retained);
    var once := Restrict(aged, retained);
    assert RetainedIds(once, active, referenced) == retained;
    assert Restrict(once, retained) == once;
  }

  /** At a fixed clock, pruning twice equals pruning once. */
  lemma PruneIdempotent(s: Store, now: real)
    requires Valid(s)
    ensures Valid(Prune(s, now))
    ensures Prune(Prune(s, now), now) == Prune(s, now)
  {
    PruneKeeps(s, now);
    var cutoff := now - CHAT_RETENTION_SECONDS;
    var p := Prune(s, now);
    PruneMessagesIdempotent(s.messages, ReferencedIds(p.records), cutoff);
    PruneRecordsIdempotent(s.records, ActiveIds(s.messages), cutoff);
  }

  lemma NewestHasMax(keys: map<string, int>, n: nat, x: string)
    requires Distinct(keys) && n > 0 && IsArgMax(keys, x)
    ensures x in Newest(keys, n)
  {
    NewestIsNewest(keys, n);
    var top := Newest(keys, n);
    assert x in keys && |top| > 0;
    var a :| a in top;
    assert keys[a] <= keys[x];
  }

  /** The newest record, if recent, survives the pruning of records. */
  lemma LastRecordKept(rs: map<string, Record>, active: set<string>, cutoff: real, r: string)
    requires ValidRecords(rs) && IsArgMax(RecordKeys(rs), r) && rs[r].createdAt >= cutoff
    ensures r in PruneRecords(rs, active, cutoff)
  {
    AgedRecordsValid(rs, active, cutoff);
    var aged := AgedRecords(rs, active, cutoff);
    var keys, all := RecordKeys(aged), RecordKeys(rs);
    assert r in aged;
    assert forall k :: k in keys ==> k in all && keys[k] == all[k];
    NewestHasMax(keys, MAX_CHAT_RECORDS, r);
  }

  /** So a recent message that the newest record refers to survives pruning. */
  lemma LastReferencedKept(s: Store, now: real, r: string, k: string)
    requires Valid(s) && IsArgMax(RecordKeys(s.records), r) && s.records[r].createdAt >= now - CHAT_RETENTION_SECONDS
    requires k in s.messages && Refers(s.records[r], k)
    requires s.messages[k].updatedAt >= now - CHAT_RETENTION_SECONDS
    ensures k in Prune(s, now).messages
  {
    LastRecordKept(s.records, ActiveIds(s.messages), now - CHAT_RETENTION_SECONDS, r);
    PruneSafe(s, now);
  }

  // ---------------------------------------------------------------- exactly what pruning keeps

  function Above(keys: map<string, int>, k: string): set<string>
    requires k in keys
  {
    set x | x in keys && keys[x] > keys[k]
  }

  /** Being among the n newest is having fewer than n newer ones. */
  lemma NewestExactly(keys: map<string, int>, n: nat, k: string)
    requires Distinct(keys) && k in keys
    ensures k in Newest(keys, n) <==> |Above(keys, k)| < n
  {
    NewestIsNewest(keys, n);
    var top, above := Newest(keys, n), Above(keys, k);
    if k in top {
      assert above <= top - {k};
      SubsetSize(above, top - {k});
    } else {
      SubsetSize(top, keys.Keys);
      assert top <= above;
      SubsetSize(top, above);
    }
  }

  /** At most three days old. */
  predicate Young(at: real, now: real) {
    now - at <= 259200.0
  }

  predicate UnderWork(s: Store, k: string) {
    k in s.messages && (s.messages[k].status.Queued? || s.messages[k].status.Streaming?)
  }

  predicate MessageMayStay(s: Store, now: real, k: string) {
    k in s.messages && (UnderWork(s, k) || Young(s.messages[k].createdAt, now) || Young(s.messages[k].updatedAt, now))
  }

  predicate RecordMayStay(s: Store, now: real, r: string) {
    && r in s.records
    && (Young(s.records[r].createdAt, now) || (s.records[r].messageId.Some? && UnderWork(s, s.records[r].messageId.value)))
  }

  ghost function NewerMessages(s: Store, now: real, k: string): set<string>
    requires k in s.messages
  {
    set x | x in s.messages && MessageMayStay(s, now, x) && s.messages[x].sequence > s.messages[k].sequence
  }

  ghost function NewerRecords(s: Store, now: real, r: string): set<string>
    requires r in s.records
  {
    set x | x in s.records && RecordMayStay(s, now, x) && s.records[x].sequence > s.records[r].sequence
  }

  /** A kept record names the message. */
  ghost predicate KeptRecordNames(s: Store, now: real, k: string)
    requires Valid(s)
  {
    exists r :: r in Prune(s, now).records && s.records[r].messageId == Some(k)
  }

  lemma AgedRecordsMeans(s: Store, now: real, r: string)
    requires Valid(s)
    ensures r in AgedRecords(s.records, ActiveIds(s.messages), now - CHAT_RETENTION_SECONDS) <==> RecordMayStay(s, now, r)
  {}

  lemma AgedMessagesMeans(s: Store, now: real, k: string)
    ensures k in AgedMessages(s.messages, now - CHAT_RETENTION_SECONDS) <==> MessageMayStay(s, now, k)
  {}

  lemma AboveRecords(s: Store, now: real, aged: map<string, Record>, r: string)
    requires SubMap(aged, s.records) && r in aged && forall x :: x in aged <==> RecordMayStay(s, now, x)
    ensures Above(RecordKeys(aged), r) == NewerRecords(s, now, r)
  {}

  lemma AboveMessages(s: Store, now: real, aged: map<string, Message>, k: string)
    requires SubMap(aged, s.messages) && k in aged && forall x :: x in aged <==> MessageMayStay(s, now, x)
    ensures Above(MessageKeys(aged), k) == NewerMessages(s, now, k)
  {}

  lemma PrunedRecord(rs: map<string, Record>, active: set<string>, cutoff: real, aged: map<string, Record>, r: string)
    requires ValidRecords(rs) && aged == AgedRecords(rs, active, cutoff)
    ensures ValidRecords(aged) && (r in PruneRecords(rs, active, cutoff) <==> r in aged && |Above(RecordKeys(aged), r)| < 140)
  {
    AgedRecordsValid(rs, active, cutoff);
    if r in aged {
      NewestExactly(RecordKeys(aged), MAX_CHAT_RECORDS, r);
    }
  }

  lemma PrunedMessage(ms: map<string, Message>, referenced: set<string>, cutoff: real, aged: map<string, Message>, k: string)
    requires ValidMessages(ms) && aged == AgedMessages(ms, cutoff)
    ensures ValidMessages(aged)
    ensures k in PruneMessages(ms, referenced, cutoff) <==>
              k in aged && (k in ActiveIds(ms) || k in referenced || |Above(MessageKeys(aged), k)| < 80)
  {
    AgedMessagesValid(ms, cutoff);
    if k in aged {
      NewestExactly(MessageKeys(aged), MAX_CHAT_MESSAGES, k);
    }
  }

  lemma RecordKeptExactly(s: Store, now: real, r: string)
    requires Valid(s)
    ensures r in Prune(s, now).records <==> RecordMayStay(s, now, r) && |NewerRecords(s, now, r)| < 140
  {
    var cutoff, active := now - CHAT_RETENTION_SECONDS, ActiveIds(s.messages);
    var aged := AgedRecords(s.records, active, cutoff);
    PrunedRecord(s.records, active, cutoff, aged, r);
    forall x ensures x in aged <==> RecordMayStay(s, now, x) {
      AgedRecordsMeans(s, now, x);
    }
    if r in aged {
      AboveRecords(s, now, aged, r);
    }
  }

  lemma NamesExactly(rs: map<string, Record>, all: map<string, Record>, k: string)
    requires SubMap(rs, all) && k != ""
    ensures k in ReferencedIds(rs) <==> exists r :: r in rs && all[r].messageId == Some(k)
  {}

  lemma NewerExactly(s: Store, now: real, aged: map<string, Message>, k: string)
    requires aged == AgedMessages(s.messages, now - CHAT_RETENTION_SECONDS) && k in aged
    ensures Above(MessageKeys(aged), k) == NewerMessages(s, now, k)
  {
    forall x ensures x in aged <==> MessageMayStay(s, now, x) {
      AgedMessagesMeans(s, now, x);
    }
    AboveMessages(s, now, aged, k);
  }

  lemma PruneIs(s: Store, now: real, p: Store, referenced: set<string>)
    requires Valid(s) && p == Prune(s, now) && referenced == ReferencedIds(p.records)
    ensures p.messages == PruneMessages(s.messages, referenced, now - CHAT_RETENTION_SECONDS)
  {}

  lemma PrunedUnderWork(s: Store, now: real, kept: map<string, Message>, referenced: set<string>, aged: map<string, Message>, k: string)
    requires Valid(s) && k in s.messages && aged == AgedMessages(s.messages, now - CHAT_RETENTION_SECONDS)
    requires kept == PruneMessages(s.messages, referenced, now - CHAT_RETENTION_SECONDS)
    ensures k in kept <==> k in aged && (UnderWork(s, k) || k in referenced || |Above(MessageKeys(aged), k)| < 80)
  {
    PrunedMessage(s.messages, referenced, now - CHAT_RETENTION_SECONDS, aged, k);
  }

  lemma PruneParts(s: Store, now: real, aged: map<string, Message>, k: string)
    requires Valid(s) && k in s.messages && aged == AgedMessages(s.messages, now - CHAT_RETENTION_SECONDS)
    ensures k in Prune(s, now).messages <==>
              k in aged && (UnderWork(s, k) || k in ReferencedIds(Prune(s, now).records) || |Above(MessageKeys(aged), k)| < 80)
  {
    var p := Prune(s, now);
    var referenced, kept := ReferencedIds(p.records), p.messages;
    PruneIs(s, now, p, referenced);
    PrunedUnderWork(s, now, kept, referenced, aged, k);
  }

  lemma NamedExactly(s: Store, now: real, k: string)
    requires Valid(s) && k in s.messages
    ensures k in ReferencedIds(Prune(s, now).records) <==> KeptRecordNames(s, now, k)
  {
    PruneKeeps(s, now);
    NamesExactly(Prune(s, now).records, s.records, k);
  }

  lemma KeptAmongAged(s: Store, now: real, aged: map<string, Message>, k: string)
    requires Valid(s) && k in s.messages && aged == AgedMessages(s.messages, now - CHAT_RETENTION_SECONDS)
    ensures k in Prune(s, now).messages <==>
              k in aged && (UnderWork(s, k) || KeptRecordNames(s, now, k) || |Above(MessageKeys(aged), k)| < 80)
  {
    PruneParts(s, now, aged, k);
    NamedExactly(s, now, k);
  }

  lemma MessageKeptExactly(s: Store, now: real, k: string)
    requires Valid(s) && k in s.messages
    ensures k in Prune(s, now).messages <==>
              || UnderWork(s, k)
              || (MessageMayStay(s, now, k) && (KeptRecordNames(s, now, k) || |NewerMessages(s, now, k)| < 80))
  {
    var aged := AgedMessages(s.messages, now - CHAT_RETENTION_SECONDS);
    KeptAmongAged(s, now, aged, k);
    AgedMessagesMeans(s, now, k);
    if k in aged {
      NewerExactly(s, now, aged, k);
    }
  }

  /**
   Exactly what stays: a record that is at most three days old or about a message under work, unless 140 such records
   are newer; and a message that is queued or streaming, or at most three days old and either named by a kept record or
   among the 80 newest that may stay.
   */
  lemma PruneExactly(s: Store, now: real)
    requires Valid(s)
    ensures forall r :: r in Prune(s, now).records <==> RecordMayStay(s, now, r) && |NewerRecords(s, now, r)| < 140
    ensures Prune(s, now).messages.Keys <= s.messages.Keys
    ensures forall k :: k in s.messages ==>
              (k in Prune(s, now).messages <==>
                 || UnderWork(s, k)
                 || (MessageMayStay(s, now, k) && (KeptRecordNames(s, now, k) || |NewerMessages(s, now, k)| < 80)))
  {
    PruneKeeps(s, now);
    forall r ensures r in Prune(s, now).records <==> RecordMayStay(s, now, r) && |NewerRecords(s, now, r)| < 140 {
      RecordKeptExactly(s, now, r);
    }
    forall k | k in s.messages
      ensures k in Prune(s, now).messages <==>
                || UnderWork(s, k)
                || (MessageMayStay(s, now, k) && (KeptRecordNames(s, now, k) || |NewerMessages(s, now, k)| < 80))
    {
      MessageKeptExactly(s, now, k);
    }
  }
}
