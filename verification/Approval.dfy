/** Approvals: a decision bound by fingerprint to the details the user reviewed, and spent at most once. */
module Approval {
  import opened Prelude
  import opened Requests
  import opened RequestRuns

  /** JSON-like details. Numbers carry the text Python's `str` gives them. */
  datatype Value =
    | Null | Truth(b: bool) | Number(text: string) | Text(text: string)
    | Items(items: seq<Value>) | Entries(entries: map<string, Value>)

  datatype Normal = Plain(text: string) | Many(items: seq<Normal>) | Table(entries: map<string, Normal>)

  function Normalize(v: Value): Normal {
    match v
    case Null => Plain("")
    case Truth(b) => Plain(if b then "True" else "False")
    case Number(text) => Plain(Strip(text))
    case Text(text) => Plain(Strip(text))
    case Items(items) => Many(seq(|items|, i requires 0 <= i < |items| => Normalize(items[i])))
    case Entries(entries) => Table(map k | k in entries :: Normalize(entries[k]))
  }

  function Embed(n: Normal): Value {
    match n
    case Plain(text) => Text(text)
    case Many(items) => Items(seq(|items|, i requires 0 <= i < |items| => Embed(items[i])))
    case Table(entries) => Entries(map k | k in entries :: Embed(entries[k]))
  }

  /** Normal values are their own normal form: normalising again changes nothing. */
  lemma {:induction false} NormalizeIdempotent(v: Value)
    ensures Normalize(Embed(Normalize(v))) == Normalize(v)
  {
    match v
    case Null =>
    case Truth(_) =>
    case Number(text) => StripIdempotent(text);
    case Text(text) => StripIdempotent(text);
    case Items(items) =>
      forall i | 0 <= i < |items| ensures Normalize(Embed(Normalize(items[i]))) == Normalize(items[i]) {
        NormalizeIdempotent(items[i]);
      }
      ItemsIdempotent(items);
    case Entries(entries) =>
      forall k | k in entries ensures Normalize(Embed(Normalize(entries[k]))) == Normalize(entries[k]) {
        NormalizeIdempotent(entries[k]);
      }
      EntriesIdempotent(entries);
  }

  lemma ItemsIdempotent(items: seq<Value>)
    requires forall i :: 0 <= i < |items| ==> Normalize(Embed(Normalize(items[i]))) == Normalize(items[i])
    ensures Normalize(Embed(Normalize(Items(items)))) == Normalize(Items(items))
  {}

  lemma EntriesIdempotent(entries: map<string, Value>)
    requires forall k :: k in entries ==> Normalize(Embed(Normalize(entries[k]))) == Normalize(entries[k])
    ensures Normalize(Embed(Normalize(Entries(entries)))) == Normalize(Entries(entries))
  {}

  predicate IsPlain(v: Value) {
    !v.Items? && !v.Entries?
  }

  /** How a reviewer reads a value that is neither a list nor a table. */
  function Wording(v: Value): string
    requires IsPlain(v)
  {
    match v
    case Null => ""
    case Truth(b) => if b then "True" else "False"
    case Number(text) => text
    case Text(text) => text
  }

  /**
   Two values a reviewer cannot tell apart: the same wording up to white space around it, lists item by item, tables
   entry by entry.
   */
  ghost predicate Same(v: Value, w: Value) {
    if v.Items? && w.Items? then |v.items| == |w.items| && forall i :: 0 <= i < |v.items| ==> Same(v.items[i], w.items[i])
    else if v.Entries? && w.Entries? then
      v.entries.Keys == w.entries.Keys && forall k :: k in v.entries ==> Same(v.entries[k], w.entries[k])
    else IsPlain(v) && IsPlain(w) && SameText(Wording(v), Wording(w))
  }

  lemma PlainExactly(v: Value, w: Value)
    requires IsPlain(v) && IsPlain(w)
    ensures Normalize(v) == Normalize(w) <==> SameText(Wording(v), Wording(w))
  {
    PlainNormal(v);
    PlainNormal(w);
    StripExactly(Wording(v), Wording(w));
  }

  lemma PlainNormal(v: Value)
    requires IsPlain(v)
    ensures Normalize(v) == Plain(Strip(Wording(v)))
  {
    if v.Truth? {
      StripFixed("True");
      StripFixed("False");
    }
  }

  /** Normal forms are equal exactly of values that a reviewer cannot tell apart. */
  lemma {:induction false} NormalizeExactly(v: Value, w: Value)
    ensures Normalize(v) == Normalize(w) <==> Same(v, w)
    decreases v
  {
    if v.Items? && w.Items? {
      ItemsExactly(v.items, w.items, v);
    } else if v.Entries? && w.Entries? {
      EntriesExactly(v.entries, w.entries, v);
    } else if IsPlain(v) && IsPlain(w) {
      PlainExactly(v, w);
    }
  }

  lemma {:induction false} ItemsExactly(xs: seq<Value>, ys: seq<Value>, v: Value)
    requires v == Items(xs)
    ensures Normalize(Items(xs)) == Normalize(Items(ys)) <==> Same(Items(xs), Items(ys))
    decreases v, 0
  {
    var a, b := Normalize(Items(xs)).items, Normalize(Items(ys)).items;
    assert |a| == |xs| && |b| == |ys|;
    assert Normalize(Items(xs)) == Many(a) && Normalize(Items(ys)) == Many(b);
    if |xs| == |ys| {
      forall i | 0 <= i < |xs| ensures Normalize(xs[i]) == Normalize(ys[i]) <==> Same(xs[i], ys[i]) {
        NormalizeExactly(xs[i], ys[i]);
      }
      assert forall i :: 0 <= i < |xs| ==> a[i] == Normalize(xs[i]) && b[i] == Normalize(ys[i]);
      assert a == b <==> forall i :: 0 <= i < |xs| ==> Normalize(xs[i]) == Normalize(ys[i]);
    }
  }

  lemma {:induction false} EntriesExactly(m: map<string, Value>, n: map<string, Value>, v: Value)
    requires v == Entries(m)
    ensures Normalize(Entries(m)) == Normalize(Entries(n)) <==> Same(Entries(m), Entries(n))
    decreases v, 0
  {
    var a, b := Normalize(Entries(m)).entries, Normalize(Entries(n)).entries;
    assert a.Keys == m.Keys && b.Keys == n.Keys;
    if m.Keys == n.Keys {
      forall k | k in m ensures Normalize(m[k]) == Normalize(n[k]) <==> Same(m[k], n[k]) {
        NormalizeExactly(m[k], n[k]);
      }
      assert a == b <==> forall k :: k in m ==> a[k] == b[k];
    }
  }

  // ---------------------------------------------------------------- scope and fingerprint

  const APPROVAL_SCOPE_FIELDS: seq<string> := [
    "sensitive_action_type", "merchant", "payee", "recipient", "amount", "currency", "item_summary",
    "service_summary", "payment_method_summary", "billing_method_summary", "origin", "form_action",
    "form_action_origin", "final_button", "subscription", "renewal", "refund_terms", "cancellation_terms",
    "after_approval"
  ]

  /** What the caller is about to do, as shown to the user or as presented again at use. */
  datatype Deed = Deed(origin: string, topLevelUrl: string, summary: string, details: map<string, Value>)

  type Scope = map<string, Normal>

  function BaseScope(a: Deed): Scope {
    map["origin" := Normalize(Text(a.origin)),
        "top_level_url" := Normalize(Text(a.topLevelUrl)),
        "action_summary" := Normalize(Text(a.summary))]
  }

  /** Reviewed details override the base entries of the same name. */
  function ScopeWith(a: Deed, fields: seq<string>): Scope {
    BaseScope(a) + map k | k in a.details && k in fields :: Normalize(a.details[k])
  }

  function ScopeOf(a: Deed): Scope {
    ScopeWith(a, APPROVAL_SCOPE_FIELDS)
  }

  lemma ScopeStep(a: Deed, done: seq<string>, key: string)
    ensures ScopeWith(a, done + [key])
         == if key in a.details then ScopeWith(a, done)[key := Normalize(a.details[key])] else ScopeWith(a, done)
  {}

  /** The fields of the details that the user is shown and decides about. */
  const REVIEWED_FIELDS: set<string> := {
    "sensitive_action_type", "merchant", "payee", "recipient", "amount", "currency", "item_summary",
    "service_summary", "payment_method_summary", "billing_method_summary", "origin", "form_action",
    "form_action_origin", "final_button", "subscription", "renewal", "refund_terms", "cancellation_terms",
    "after_approval"
  }

  /** The origin shown: the one among the details, if there is one, otherwise the page's own. */
  function ShownOrigin(a: Deed): Value {
    if "origin" in a.details then a.details["origin"] else Text(a.origin)
  }

  ghost predicate SameField(a: Deed, b: Deed, field: string) {
    && (field in a.details <==> field in b.details)
    && (field in a.details && field in b.details ==> Same(a.details[field], b.details[field]))
  }

  /** The same to a reviewer who is shown these fields, the address, the summary and the origin. */
  ghost predicate SameOn(a: Deed, b: Deed, shown: set<string>) {
    && SameText(a.topLevelUrl, b.topLevelUrl)
    && SameText(a.summary, b.summary)
    && Same(ShownOrigin(a), ShownOrigin(b))
    && forall field :: field in shown && field != "origin" ==> SameField(a, b, field)
  }

  /** Two deeds a reviewer cannot tell apart. */
  ghost predicate SameDeed(a: Deed, b: Deed) {
    SameOn(a, b, REVIEWED_FIELDS)
  }

  ghost predicate Lists(fields: seq<string>, shown: set<string>) {
    && (forall k :: k in fields <==> k in shown)
    && "origin" in shown && "top_level_url" !in shown && "action_summary" !in shown
  }

  /** What the scope holds under a name, before it is normalised. */
  function Entry(a: Deed, shown: set<string>, k: string): Option<Value> {
    if k == "top_level_url" then Some(Text(a.topLevelUrl))
    else if k == "action_summary" then Some(Text(a.summary))
    else if k == "origin" then Some(ShownOrigin(a))
    else if k in shown && k in a.details then Some(a.details[k])
    else None
  }

  function Found(scope: Scope, k: string): Option<Normal> {
    if k in scope then Some(scope[k]) else None
  }

  lemma ScopeAt(a: Deed, fields: seq<string>, shown: set<string>, k: string)
    requires (k in fields <==> k in shown) && "origin" in shown && "top_level_url" !in shown && "action_summary" !in shown
    requires "origin" in fields && "top_level_url" !in fields && "action_summary" !in fields
    ensures var entry := Entry(a, shown, k);
            Found(ScopeWith(a, fields), k) == if entry.Some? then Some(Normalize(entry.value)) else None
  {}

  ghost predicate SameEntry(x: Option<Value>, y: Option<Value>) {
    if x.Some? && y.Some? then Same(x.value, y.value) else x == y
  }

  lemma SameEntryExactly(a: Deed, b: Deed, fields: seq<string>, shown: set<string>, k: string)
    requires Lists(fields, shown)
    ensures SameEntry(Entry(a, shown, k), Entry(b, shown, k)) <==> Found(ScopeWith(a, fields), k) == Found(ScopeWith(b, fields), k)
  {
    ScopeAt(a, fields, shown, k);
    ScopeAt(b, fields, shown, k);
    var x, y := Entry(a, shown, k), Entry(b, shown, k);
    if x.Some? && y.Some? {
      NormalizeExactly(x.value, y.value);
    }
  }

  lemma SameEntries(a: Deed, b: Deed, shown: set<string>)
    requires "origin" in shown && "top_level_url" !in shown && "action_summary" !in shown
    ensures SameOn(a, b, shown) <==> forall k :: SameEntry(Entry(a, shown, k), Entry(b, shown, k))
  {
    if forall k :: SameEntry(Entry(a, shown, k), Entry(b, shown, k)) {
      assert SameEntry(Entry(a, shown, "top_level_url"), Entry(b, shown, "top_level_url"));
      assert SameEntry(Entry(a, shown, "action_summary"), Entry(b, shown, "action_summary"));
      assert SameEntry(Entry(a, shown, "origin"), Entry(b, shown, "origin"));
      forall field | field in shown && field != "origin" ensures SameField(a, b, field) {
        assert SameEntry(Entry(a, shown, field), Entry(b, shown, field));
      }
    }
  }

  lemma SameScopes(m: Scope, n: Scope)
    ensures m == n <==> forall k :: Found(m, k) == Found(n, k)
  {
    if forall k :: Found(m, k) == Found(n, k) {
      forall k ensures (k in m <==> k in n) && (k in m && k in n ==> m[k] == n[k]) {
        assert Found(m, k) == Found(n, k);
      }
    }
  }

  lemma ScopeOnExactly(a: Deed, b: Deed, fields: seq<string>, shown: set<string>)
    requires Lists(fields, shown)
    ensures ScopeWith(a, fields) == ScopeWith(b, fields) <==> SameOn(a, b, shown)
  {
    var m, n := ScopeWith(a, fields), ScopeWith(b, fields);
    SameScopes(m, n);
    SameEntries(a, b, shown);
    forall k ensures SameEntry(Entry(a, shown, k), Entry(b, shown, k)) <==> Found(m, k) == Found(n, k) {
      SameEntryExactly(a, b, fields, shown, k);
    }
  }

  lemma SameMembers(a: string, b: string, c: string, d: string, e: string, f: string, g: string, h: string, i: string,
                    j: string, l: string, m: string, n: string, o: string, p: string, q: string, r: string, s: string,
                    t: string, k: string)
    ensures k in [a, b, c, d, e, f, g, h, i, j, l, m, n, o, p, q, r, s, t]
       <==> k in {a, b, c, d, e, f, g, h, i, j, l, m, n, o, p, q, r, s, t}
  {
    var all := [a, b, c, d, e, f, g, h, i, j, l, m, n, o, p, q, r, s, t];
    assert all[0] in all && all[1] in all && all[2] in all && all[3] in all && all[4] in all && all[5] in all && all[6] in all;
    assert all[7] in all && all[8] in all && all[9] in all && all[10] in all && all[11] in all && all[12] in all;
    assert all[13] in all && all[14] in all && all[15] in all && all[16] in all && all[17] in all && all[18] in all;
  }

  lemma BaseNotReviewed()
    ensures "origin" in REVIEWED_FIELDS && "top_level_url" !in REVIEWED_FIELDS && "action_summary" !in REVIEWED_FIELDS
  {
    assert "action_summary"[1] != "after_approval"[1];
  }

  lemma AllListed()
    ensures Lists(APPROVAL_SCOPE_FIELDS, REVIEWED_FIELDS)
  {
    BaseNotReviewed();
    forall k ensures k in APPROVAL_SCOPE_FIELDS <==> k in REVIEWED_FIELDS {
      SameMembers("sensitive_action_type", "merchant", "payee", "recipient", "amount", "currency", "item_summary",
                  "service_summary", "payment_method_summary", "billing_method_summary", "origin", "form_action",
                  "form_action_origin", "final_button", "subscription", "renewal", "refund_terms", "cancellation_terms",
                  "after_approval", k);
    }
  }

  /** Scopes are equal exactly of deeds that a reviewer cannot tell apart. */
  lemma ScopeExactly(a: Deed, b: Deed)
    ensures ScopeOf(a) == ScopeOf(b) <==> SameDeed(a, b)
  {
    AllListed();
    ScopeOnExactly(a, b, APPROVAL_SCOPE_FIELDS, REVIEWED_FIELDS);
  }

  /** The scope is filled field by field, later fields overriding earlier entries. */
  method BuildScope(a: Deed, fields: seq<string>) returns (scope: Scope)
    ensures scope == ScopeWith(a, fields)
  {
    scope := BaseScope(a);
    assert scope == ScopeWith(a, []);
    for i := 0 to |fields|
      invariant scope == ScopeWith(a, fields[..i])
    {
      var key := fields[i];
      assert fields[..i + 1] == fields[..i] + [key];
      ScopeStep(a, fields[..i], key);
      if key in a.details {
        scope := scope[key := Normalize(a.details[key])];
      }
    }
    assert fields[..|fields|] == fields;
  }

  /** An override hides the origin argument from the fingerprint altogether: the separate origin check is needed. */
  lemma OriginCanBeHidden(a: Deed, other: string)
    requires "origin" in a.details
    ensures ScopeOf(a) == ScopeOf(a.(origin := other))
  {}

  /** The digest of the canonical JSON text of a scope. */
  type Digest = Scope -> string

  ghost predicate IsInjective(hash: Digest) {
    forall a, b :: hash(a) == hash(b) ==> a == b
  }

  // ---------------------------------------------------------------- verification

  datatype Verdict =
    | Granted(request: Request)
    | Unknown | NotYetApproved | SpentAlready | ScopeChanged | NoFingerprint | OriginMismatch | ConsumeRefused

  /** The checks before consumption, on the record as `get` returns it. */
  function Check(r: Request, a: Deed, hash: Digest): Verdict {
    if r.status != Approved then NotYetApproved
    else if r.used then SpentAlready
    else if r.fingerprint.None? || r.fingerprint.value == "" then NoFingerprint
    else if hash(ScopeOf(a)) != r.fingerprint.value then ScopeChanged
    else if r.origin != a.origin then OriginMismatch
    else Granted(r)
  }

  function Verify(s: Store, id: string, a: Deed, consume: bool, now: real, c: Clock, hash: Digest): (Store, Verdict) {
    if id !in s then (s, Unknown)
    else
      var s1 := Get(s, id, now);
      var verdict := Check(s1[id], a, hash);
      if !verdict.Granted? || !consume then (s1, verdict)
      else
        var (s2, reply) := Act(s1, id, ConsumeApproval, c);
        (s2, if reply.Done? then Granted(reply.request) else ConsumeRefused)
  }

  /** `verify_approval_scope` on the store object. */
  method VerifyApprovalScope(store: RequestStore, id: string, a: Deed, consume: bool, now: real, c: Clock, hash: Digest)
    returns (verdict: Verdict)
    requires Keyed(store.requests)
    modifies store
    ensures (store.requests, verdict) == Verify(old(store.requests), id, a, consume, now, c, hash)
  {
    var got := store.GetRequest(id, now);
    if got.None? {
      return Unknown;
    }
    var scope := BuildScope(a, APPROVAL_SCOPE_FIELDS);
    var r := got.value;
    if r.status != Approved {
      return NotYetApproved;
    }
    if r.used {
      return SpentAlready;
    }
    var expected := if r.fingerprint.Some? then r.fingerprint.value else "";
    if expected != "" && hash(scope) != expected {
      return ScopeChanged;
    }
    if expected == "" {
      return NoFingerprint;
    }
    if r.origin != a.origin {
      return OriginMismatch;
    }
    if consume {
      var reply := store.Perform(id, ConsumeApproval, c);
      return if reply.Done? then Granted(reply.request) else ConsumeRefused;
    }
    verdict := Granted(r);
  }

  // ---------------------------------------------------------------- runs

  datatype BookOp =
    | Ask(id: string, requestType: string, deed: Deed, ttl: real, now: real)
    | Other(op: Op)
    | Use(id: string, deed: Deed, consume: bool, now: real, clock: Clock)

  /** The request machine, what was asked for at creation, and the ids already spent through `Use`. */
  datatype Book = Book(world: World, asked: map<string, Deed>, spent: seq<string>)

  const Opening := Book(Start, map[], [])

  predicate MayDo(b: Book, op: BookOp) {
    match op
    case Ask(id, requestType, _, _, _) => id !in b.world.store && requestType in REQUEST_TYPES
    case Other(o) => Allowed(b.world, o)
    case Use(_, _, _, _, _) => true
  }

  function AskOp(op: BookOp, hash: Digest): Op
    requires op.Ask?
  {
    OpCreate(op.id, op.requestType, op.deed.origin, None, op.ttl, Some(hash(ScopeOf(op.deed))), op.now)
  }

  /** A use is a read, followed by a consumption when the checks pass and consumption is wanted. */
  function AfterUse(w: World, op: BookOp, hash: Digest): World
    requires op.Use? && Whole(w)
  {
    var w1 := Advance(w, OpGet(op.id, op.now));
    if op.id in w1.store && op.consume && Check(w1.store[op.id], op.deed, hash).Granted?
    then Advance(w1, OpAct(op.id, ConsumeApproval, op.clock))
    else w1
  }

  predicate Spends(w: World, op: BookOp, hash: Digest) {
    op.Use? && op.consume && Verify(w.store, op.id, op.deed, true, op.now, op.clock, hash).1.Granted?
  }

  function Do(b: Book, op: BookOp, hash: Digest): Book
    requires Whole(b.world)
  {
    match op
    case Ask(id, _, deed, _, _) => b.(world := Advance(b.world, AskOp(op, hash)), asked := b.asked[id := deed])
    case Other(o) => b.(world := Advance(b.world, o))
    case Use(id, _, _, _, _) =>
      b.(world := AfterUse(b.world, op, hash), spent := b.spent + if Spends(b.world, op, hash) then [id] else [])
  }

  /** The machine's steps and `Verify` agree on the store. */
  lemma UseIsVerify(w: World, op: BookOp, hash: Digest)
    requires Inv(w) && op.Use?
    ensures AfterUse(w, op, hash).store == Verify(w.store, op.id, op.deed, op.consume, op.now, op.clock, hash).0
  {}

  ghost predicate AskedKept(b: Book, hash: Digest) {
    forall id :: id in b.asked ==>
      && id in b.world.store
      && b.world.store[id].fingerprint == Some(hash(ScopeOf(b.asked[id])))
      && b.world.store[id].origin == b.asked[id].origin
  }

  ghost predicate SpentMarked(b: Book) {
    && (forall i :: 0 <= i < |b.spent| ==> b.spent[i] in b.world.store && b.world.store[b.spent[i]].used)
    && (forall i, j :: 0 <= i < j < |b.spent| ==> b.spent[i] != b.spent[j])
  }

  ghost predicate BookInv(b: Book, hash: Digest) {
    Inv(b.world) && AskedKept(b, hash) && SpentMarked(b)
  }

  /** What a machine step preserves for every request. */
  ghost predicate Carries(w: World, v: World) {
    Inv(w) && Inv(v) && forall id :: id in w.store ==> Grown(w, v, id)
  }

  lemma AdvanceCarries(w: World, op: Op)
    requires Inv(w) && Allowed(w, op)
    ensures Carries(w, Advance(w, op))
  {
    InvStep(w, op);
    forall id | id in w.store ensures Grown(w, Advance(w, op), id) {
      StepGrows(w, op, id);
    }
  }

  lemma CarriesTransitive(u: World, v: World, w: World)
    requires Carries(u, v) && Carries(v, w)
    ensures Carries(u, w)
  {}

  lemma UseCarries(w: World, op: BookOp, hash: Digest)
    requires Inv(w) && op.Use?
    ensures Carries(w, AfterUse(w, op, hash))
  {
    var w1 := Advance(w, OpGet(op.id, op.now));
    AdvanceCarries(w, OpGet(op.id, op.now));
    AdvanceCarries(w1, OpAct(op.id, ConsumeApproval, op.clock));
    CarriesTransitive(w, w1, Advance(w1, OpAct(op.id, ConsumeApproval, op.clock)));
  }

  lemma VerifyReads(s: Store, op: BookOp, hash: Digest, got: Request)
    requires op.Use? && op.id in s && got == ExpireIfNeeded(s[op.id], op.now)
    ensures var verdict, checked := Verify(s, op.id, op.deed, op.consume, op.now, op.clock, hash).1, Check(got, op.deed, hash);
            var reply := ActOne(got, ConsumeApproval, op.clock).1;
            verdict == if !checked.Granted? || !op.consume then checked
                       else if reply.Done? then Granted(reply.request) else ConsumeRefused
  {
    assert Get(s, op.id, op.now)[op.id] == got;
  }

  lemma GrantedFromRecord(s: Store, op: BookOp, hash: Digest)
    requires op.Use? && Verify(s, op.id, op.deed, op.consume, op.now, op.clock, hash).1.Granted?
    ensures op.id in s
    ensures var r := s[op.id];
            && r.status == Approved && !r.used && op.now <= r.expiresAt
            && (op.consume ==> op.clock.get <= r.expiresAt && op.clock.check <= r.expiresAt)
            && r.fingerprint == Some(hash(ScopeOf(op.deed))) && r.origin == op.deed.origin
  {
    var got := ExpireIfNeeded(s[op.id], op.now);
    VerifyReads(s, op, hash, got);
    ReadExactly(s[op.id], op.now);
    RepliesExactly(got, ConsumeApproval, op.clock);
  }

  lemma ConsumptionUses(r: Request, c: Clock)
    requires ActOne(r, ConsumeApproval, c).1.Done?
    ensures ActOne(r, ConsumeApproval, c).0.used
  {}

  /** A successful consuming use found the request unused and leaves it used. */
  lemma SpendingUses(w: World, op: BookOp, hash: Digest)
    requires Inv(w) && Spends(w, op, hash)
    ensures op.id in w.store && !w.store[op.id].used
    ensures op.id in AfterUse(w, op, hash).store && AfterUse(w, op, hash).store[op.id].used
  {
    UseIsVerify(w, op, hash);
    GrantedFromRecord(w.store, op, hash);
    ConsumptionUses(Get(w.store, op.id, op.now)[op.id], op.clock);
  }

  lemma CarryAsked(b: Book, v: Book, hash: Digest)
    requires AskedKept(b, hash) && Carries(b.world, v.world) && v.asked == b.asked
    ensures AskedKept(v, hash)
  {}

  /** What is used stays used. */
  ghost predicate UsedStays(s: Store, t: Store) {
    forall id :: id in s && s[id].used ==> id in t && t[id].used
  }

  lemma CarriesUsed(w: World, v: World)
    requires Carries(w, v)
    ensures UsedStays(w.store, v.store)
  {}

  lemma CarrySpent(b: Book, v: Book)
    requires SpentMarked(b) && UsedStays(b.world.store, v.world.store) && v.spent == b.spent
    ensures SpentMarked(v)
  {}

  lemma ExtendSpent(b: Book, v: Book, id: string)
    requires SpentMarked(b) && UsedStays(b.world.store, v.world.store) && v.spent == b.spent + [id]
    requires id in b.world.store && !b.world.store[id].used
    requires id in v.world.store && v.world.store[id].used
    ensures SpentMarked(v)
  {}

  lemma UseStep(b: Book, op: BookOp, hash: Digest)
    requires BookInv(b, hash) && op.Use?
    ensures BookInv(Do(b, op, hash), hash)
  {
    UseCarries(b.world, op, hash);
    var v := Do(b, op, hash);
    CarryAsked(b, v, hash);
    CarriesUsed(b.world, v.world);
    if Spends(b.world, op, hash) {
      SpendingUses(b.world, op, hash);
      ExtendSpent(b, v, op.id);
    } else {
      CarrySpent(b, v);
    }
  }

  lemma BookStep(b: Book, op: BookOp, hash: Digest)
    requires BookInv(b, hash) && MayDo(b, op)
    ensures BookInv(Do(b, op, hash), hash)
  {
    match op
    case Ask(_, _, _, _, _) =>
      AdvanceCarries(b.world, AskOp(op, hash));
      CarriesUsed(b.world, Do(b, op, hash).world);
      CarrySpent(b, Do(b, op, hash));
    case Other(o) =>
      AdvanceCarries(b.world, o);
      CarryAsked(b, Do(b, op, hash), hash);
      CarriesUsed(b.world, Do(b, op, hash).world);
      CarrySpent(b, Do(b, op, hash));
    case Use(_, _, _, _, _) => UseStep(b, op, hash);
  }

  ghost predicate IsBookRun(bs: seq<Book>, ops: seq<BookOp>, hash: Digest) {
    && |bs| == |ops| + 1
    && bs[0] == Opening
    && forall n :: 0 <= n < |ops| ==> Whole(bs[n].world) && MayDo(bs[n], ops[n]) && bs[n + 1] == Do(bs[n], ops[n], hash)
  }

  lemma {:induction false} BookAlong(bs: seq<Book>, ops: seq<BookOp>, hash: Digest, n: nat)
    requires IsBookRun(bs, ops, hash) && n < |bs|
    ensures BookInv(bs[n], hash)
  {
    if n > 0 {
      BookAlong(bs, ops, hash, n - 1);
      BookStep(bs[n - 1], ops[n - 1], hash);
    }
  }

  /** In any run each approval is spent at most once. */
  lemma SpentAtMostOnce(bs: seq<Book>, ops: seq<BookOp>, hash: Digest, n: nat, i: nat, j: nat)
    requires IsBookRun(bs, ops, hash) && n < |bs| && i < j < |bs[n].spent|
    ensures bs[n].spent[i] != bs[n].spent[j]
  {
    BookAlong(bs, ops, hash, n);
  }

  /** The latest decision was an approval, nothing has used the request up, it is in time, and the origin is right. */
  ghost predicate Allows(b: Book, op: BookOp) {
    && op.Use? && op.id in b.asked && op.id in b.world.history && op.id in b.world.store
    && LastDecision(b.world.history[op.id]) == Some(Yes)
    && !UsedUp(b.world.history[op.id])
    && op.now <= b.world.store[op.id].expiresAt
    && (op.consume ==> op.clock.get <= b.world.store[op.id].expiresAt && op.clock.check <= b.world.store[op.id].expiresAt)
    && op.deed.origin == b.asked[op.id].origin
  }

  /** What a granted use says about the request, its history and what the user was shown. */
  ghost predicate Reviewed(b: Book, op: BookOp) {
    Allows(b, op) && SameDeed(op.deed, b.asked[op.id])
  }

  /**
   A use is granted only if the latest decision was an approval, nothing had used the request up, it had not
   expired, address, summary, origin and every reviewed field read as shown to the user, and the page's own origin is
   the one asked for, even when the details carry an origin of their own.
   */
  lemma GrantedMeansReviewed(bs: seq<Book>, ops: seq<BookOp>, hash: Digest, n: nat)
    requires IsBookRun(bs, ops, hash) && n < |ops| && IsInjective(hash)
    requires ops[n].Use? && ops[n].id in bs[n].asked
    requires Verify(bs[n].world.store, ops[n].id, ops[n].deed, ops[n].consume, ops[n].now, ops[n].clock, hash).1.Granted?
    ensures Reviewed(bs[n], ops[n])
  {
    var op, b := ops[n], bs[n];
    BookAlong(bs, ops, hash, n);
    ScopeExactly(op.deed, b.asked[op.id]);
    GrantedOnRecord(b, op, hash);
  }

  lemma GrantedOnRecord(b: Book, op: BookOp, hash: Digest)
    requires BookInv(b, hash) && IsInjective(hash) && op.Use? && op.id in b.asked
    requires Verify(b.world.store, op.id, op.deed, op.consume, op.now, op.clock, hash).1.Granted?
    ensures Allows(b, op) && ScopeOf(op.deed) == ScopeOf(b.asked[op.id])
  {
    GrantedFromRecord(b.world.store, op, hash);
    assert Agrees(b.world.store[op.id], b.world.history[op.id]);
    assert hash(ScopeOf(op.deed)) == hash(ScopeOf(b.asked[op.id]));
  }

  /** The request stands approved when it is read: the user agreed, nothing came after, and its time is not up. */
  ghost predicate StandsApproved(b: Book, op: BookOp)
    requires op.Use?
  {
    && op.id in b.world.history && op.id in b.world.store
    && EndsWith(b.world.history[op.id], Agreed)
    && b.world.store[op.id].status != Expired
    && op.now <= b.world.store[op.id].expiresAt
  }

  /** What a use is answered, from the request's history and whether the user was shown the same. */
  ghost predicate IsAnswer(b: Book, op: BookOp, same: bool, marked: bool, verdict: Verdict)
    requires op.Use? && op.id in b.asked
  {
    if !StandsApproved(b, op) then verdict == NotYetApproved
    else if !marked then verdict == NoFingerprint
    else if !same then verdict == ScopeChanged
    else if op.deed.origin != b.asked[op.id].origin then verdict == OriginMismatch
    else if op.consume && (op.clock.get > b.world.store[op.id].expiresAt || op.clock.check > b.world.store[op.id].expiresAt)
    then verdict == ConsumeRefused
    else
      && verdict.Granted?
      && (!op.consume ==> verdict.request == b.world.store[op.id])
      && (op.consume ==> verdict.request.id == b.world.store[op.id].id && verdict.request.used)
  }

  lemma NotUsed(h: seq<Event>)
    requires SingleUse(h) && EndsWith(h, Agreed)
    ensures !UsedUp(h)
  {
    assert !UsesUp(h[|h| - 1]);
    forall i | 0 <= i < |h| ensures !UsesUp(h[i]) {
      assert h[|h| - 1].kind != Completed;
    }
  }

  lemma ApprovedExactly(r: Request, h: seq<Event>)
    requires Agrees(r, h)
    ensures r.status == Approved <==> EndsWith(h, Agreed) && r.status != Expired
    ensures EndsWith(h, Agreed) ==> !r.used && r.decision == Some(Yes)
  {
    if EndsWith(h, Agreed) {
      NotUsed(h);
    }
  }

  lemma CheckExactly(r: Request, asked: Deed, deed: Deed, hash: Digest, same: bool)
    requires r.fingerprint == Some(hash(ScopeOf(asked))) && r.origin == asked.origin
    requires same <==> hash(ScopeOf(deed)) == hash(ScopeOf(asked))
    ensures Check(r, deed, hash) ==
              if r.status != Approved then NotYetApproved
              else if r.used then SpentAlready
              else if hash(ScopeOf(asked)) == "" then NoFingerprint
              else if !same then ScopeChanged
              else if deed.origin != asked.origin then OriginMismatch
              else Granted(r)
  {}

  lemma ConsumeExactly(r: Request, c: Clock)
    requires r.status == Approved && !r.used && r.decision == Some(Yes) && r.oneTimeUse
    ensures ActOne(r, ConsumeApproval, c).1.Done? <==> c.get <= r.expiresAt && c.check <= r.expiresAt
    ensures ActOne(r, ConsumeApproval, c).1.Done? ==>
              ActOne(r, ConsumeApproval, c).1.request.used && ActOne(r, ConsumeApproval, c).1.request.id == r.id
  {
    RepliesExactly(r, ConsumeApproval, c);
  }

  /**
   Every use is answered by what the user decided about what was shown: granted exactly when the request stands
   approved, reads the same in every part shown, and is in time; otherwise refused, for the first reason that applies.
   */
  lemma VerdictExactly(bs: seq<Book>, ops: seq<BookOp>, hash: Digest, n: nat)
    requires IsBookRun(bs, ops, hash) && n < |ops| && IsInjective(hash)
    requires ops[n].Use? && ops[n].id in bs[n].asked
    ensures var op, asked := ops[n], bs[n].asked[ops[n].id];
            IsAnswer(bs[n], op, SameDeed(op.deed, asked), hash(ScopeOf(asked)) != "",
                     Verify(bs[n].world.store, op.id, op.deed, op.consume, op.now, op.clock, hash).1)
  {
    BookAlong(bs, ops, hash, n);
    var op, asked := ops[n], bs[n].asked[ops[n].id];
    ScopeExactly(op.deed, asked);
    VerdictOnRecord(bs[n], op, hash, SameDeed(op.deed, asked));
  }

  lemma VerdictOnRecord(b: Book, op: BookOp, hash: Digest, same: bool)
    requires BookInv(b, hash) && op.Use? && op.id in b.asked
    requires same <==> hash(ScopeOf(op.deed)) == hash(ScopeOf(b.asked[op.id]))
    ensures IsAnswer(b, op, same, hash(ScopeOf(b.asked[op.id])) != "",
                     Verify(b.world.store, op.id, op.deed, op.consume, op.now, op.clock, hash).1)
  {
    var r := b.world.store[op.id];
    var got := ExpireIfNeeded(r, op.now);
    VerifyReads(b.world.store, op, hash, got);
    CheckExactly(got, b.asked[op.id], op.deed, hash, same);
    assert Agrees(r, b.world.history[op.id]);
    AnswerOnRecord(b, op, same, hash(ScopeOf(b.asked[op.id])) != "", r, b.asked[op.id].origin, Check(got, op.deed, hash),
                   ActOne(got, ConsumeApproval, op.clock).1,
                   Verify(b.world.store, op.id, op.deed, op.consume, op.now, op.clock, hash).1);
  }

  lemma AnswerOnRecord(b: Book, op: BookOp, same: bool, marked: bool, r: Request, origin: string, checked: Verdict,
                       reply: Reply, verdict: Verdict)
    requires op.Use? && op.id in b.asked && op.id in b.world.store && op.id in b.world.history
    requires r == b.world.store[op.id] && origin == b.asked[op.id].origin && Agrees(r, b.world.history[op.id])
    requires reply == ActOne(ExpireIfNeeded(r, op.now), ConsumeApproval, op.clock).1
    requires var got := ExpireIfNeeded(r, op.now);
             checked == if got.status != Approved then NotYetApproved
                        else if got.used then SpentAlready
                        else if !marked then NoFingerprint
                        else if !same then ScopeChanged
                        else if op.deed.origin != origin then OriginMismatch
                        else Granted(got)
    requires verdict == if !checked.Granted? || !op.consume then checked
                        else if reply.Done? then Granted(reply.request) else ConsumeRefused
    ensures IsAnswer(b, op, same, marked, verdict)
  {
    ReadExactly(r, op.now);
    ApprovedExactly(r, b.world.history[op.id]);
    var got := ExpireIfNeeded(r, op.now);
    if got.status == Approved && !got.used {
      ConsumeExactly(got, op.clock);
    }
  }

  /**
   What a use leaves on file: nothing else is touched; a granted use that consumes leaves the request consumed and
   otherwise as it was; any other use leaves it unused, at most marked expired.
   */
  lemma UseLeaves(s: Store, op: BookOp, hash: Digest)
    requires op.Use? && op.id in s && s[op.id].oneTimeUse
    ensures var (left, verdict) := Verify(s, op.id, op.deed, op.consume, op.now, op.clock, hash);
            && left.Keys == s.Keys
            && (forall id :: id in s && id != op.id ==> left[id] == s[id])
            && (verdict.Granted? && op.consume ==> OutcomeOf(left[op.id]) == OutcomeOf(s[op.id]).(status := Consumed, used := true))
            && (verdict.Granted? && !op.consume ==> left[op.id] == s[op.id])
            && (!verdict.Granted? ==>
                  || left[op.id] == s[op.id]
                  || left[op.id] == s[op.id].(status := Expired, updatedAt := left[op.id].updatedAt))
  {
    var got := ExpireIfNeeded(s[op.id], op.now);
    VerifyReads(s, op, hash, got);
    ReadExactly(s[op.id], op.now);
    if op.consume && Check(got, op.deed, hash).Granted? {
      assert got == s[op.id];
      ReadExactly(got, op.clock.get);
      if ActOne(got, ConsumeApproval, op.clock).1.Done? {
        RepliesExactly(got, ConsumeApproval, op.clock);
        DoneLeaves(got, ConsumeApproval, op.clock);
      } else {
        RefusedLeaves(got, ConsumeApproval, op.clock);
      }
    }
  }
}
