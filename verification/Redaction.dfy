/** Structural redaction of JSON-like snapshots before anything is shown to the model. */
module Redaction {
  import opened Prelude

  datatype Json =
    | Null | Bool(b: bool) | Num(text: string) | Str(s: string)
    | Arr(items: seq<Json>) | Obj(entries: map<string, Json>)

  const REDACTED := "[REDACTED]"
  const LABEL_MAP_KEYS: set<string> := {"credential_labels", "field_labels"}
  const VALUE_KEYS: set<string> := {"value", "text", "name", "description"}
  const CONSULTED: seq<string> :=
    ["type", "name", "id", "label", "placeholder", "autocomplete", "role", "aria_label", "description"]

  /**
   The parts that are text processing: whether a text names a secret, what is left of a text once the
   patterns are replaced, Python's `str` of a value, and lower-casing.
   */
  datatype Rules = Rules(secret: string -> bool, text: string -> string, show: Json -> string, lower: string -> string)

  function Attribute(m: map<string, Json>, key: string, rules: Rules): string {
    if key in m then rules.show(m[key]) else ""
  }

  /** The consulted attributes, joined by spaces. */
  function Haystack(m: map<string, Json>, keys: seq<string>, rules: Rules): string {
    if keys == [] then ""
    else if |keys| == 1 then Attribute(m, keys[0], rules)
    else Attribute(m, keys[0], rules) + " " + Haystack(m, keys[1..], rules)
  }

  predicate IsSensitive(m: map<string, Json>, rules: Rules) {
    rules.secret(Haystack(m, CONSULTED, rules))
  }

  function RedactLabels(v: Json, rules: Rules): Json {
    match v
    case Str(s) => Str(rules.text(s))
    case Arr(items) => Arr(seq(|items|, i requires 0 <= i < |items| => RedactLabels(items[i], rules)))
    case Obj(m) => Obj(map k | k in m :: RedactLabels(m[k], rules))
    case _ => v
  }

  /** The value is replaced outright: a value-like key of a sensitive node, or a key that names a secret. */
  predicate IsDropped(m: map<string, Json>, k: string, rules: Rules) {
    k !in LABEL_MAP_KEYS && ((IsSensitive(m, rules) && rules.lower(k) in VALUE_KEYS) || rules.secret(k))
  }

  function Redact(v: Json, rules: Rules): Json {
    match v
    case Str(s) => Str(rules.text(s))
    case Arr(items) => Arr(seq(|items|, i requires 0 <= i < |items| => Redact(items[i], rules)))
    case Obj(m) =>
      Obj(map k | k in m ::
            if k in LABEL_MAP_KEYS then RedactLabels(m[k], rules)
            else if IsDropped(m, k, rules) then Str(REDACTED)
            else Redact(m[k], rules))
    case _ => v
  }

  // ---------------------------------------------------------------- what redaction means

  /** The printed attributes that are searched for a secret, with a space between any two. */
  function Searched(m: map<string, Json>, rules: Rules): string {
    Attribute(m, "type", rules) + " " + (Attribute(m, "name", rules) + " " + (Attribute(m, "id", rules) + " "
      + (Attribute(m, "label", rules) + " " + (Attribute(m, "placeholder", rules) + " " + (Attribute(m, "autocomplete", rules) + " "
      + (Attribute(m, "role", rules) + " " + (Attribute(m, "aria_label", rules) + " " + Attribute(m, "description", rules))))))))
  }

  /** Hidden altogether: what is under a secret-named key, and the value, text, name and description of a node found to hold a secret. */
  predicate IsHidden(m: map<string, Json>, k: string, rules: Rules) {
    rules.secret(k) || (rules.lower(k) in {"value", "text", "name", "description"} && rules.secret(Searched(m, rules)))
  }

  /** The same value with the patterns replaced in every text, and nothing else changed. */
  ghost predicate OnlyTexts(out: Json, v: Json, rules: Rules) {
    match v
    case Str(s) => out == Str(rules.text(s))
    case Arr(items) => out.Arr? && |out.items| == |items| && forall i :: 0 <= i < |items| ==> OnlyTexts(out.items[i], items[i], rules)
    case Obj(m) => out.Obj? && out.entries.Keys == m.Keys && forall k :: k in m ==> OnlyTexts(out.entries[k], m[k], rules)
    case _ => out == v
  }

  /** The same value with the patterns replaced in every text, and every hidden entry replaced by the placeholder. */
  ghost predicate IsRedaction(out: Json, v: Json, rules: Rules) {
    match v
    case Str(s) => out == Str(rules.text(s))
    case Arr(items) => out.Arr? && |out.items| == |items| && forall i :: 0 <= i < |items| ==> IsRedaction(out.items[i], items[i], rules)
    case Obj(m) =>
      && out.Obj? && out.entries.Keys == m.Keys
      && forall k :: k in m ==>
           if k == "credential_labels" || k == "field_labels" then OnlyTexts(out.entries[k], m[k], rules)
           else if IsHidden(m, k, rules) then out.entries[k] == Str("[REDACTED]")
           else IsRedaction(out.entries[k], m[k], rules)
    case _ => out == v
  }

  lemma UnrollTwo(m: map<string, Json>, a: string, b: string, rest: seq<string>, rules: Rules)
    requires rest != []
    ensures Haystack(m, [a, b] + rest, rules) == Attribute(m, a, rules) + " " + (Attribute(m, b, rules) + " " + Haystack(m, rest, rules))
  {
    Unroll(m, b, rest, rules);
    Unroll(m, a, [b] + rest, rules);
    assert [a, b] + rest == [a] + ([b] + rest);
  }

  /** A node is sensitive exactly if its nine printed attributes, joined, name a secret. */
  lemma SensitiveExactly(m: map<string, Json>, rules: Rules)
    ensures IsSensitive(m, rules) <==> rules.secret(Searched(m, rules))
  {
    var d := ["description"];
    UnrollTwo(m, "role", "aria_label", d, rules);
    UnrollTwo(m, "placeholder", "autocomplete", ["role", "aria_label"] + d, rules);
    UnrollTwo(m, "id", "label", ["placeholder", "autocomplete"] + (["role", "aria_label"] + d), rules);
    UnrollTwo(m, "type", "name", ["id", "label"] + (["placeholder", "autocomplete"] + (["role", "aria_label"] + d)), rules);
    assert CONSULTED == ["type", "name"] + (["id", "label"] + (["placeholder", "autocomplete"] + (["role", "aria_label"] + d)));
  }

  lemma DroppedExactly(m: map<string, Json>, k: string, rules: Rules)
    ensures IsDropped(m, k, rules) <==> k != "credential_labels" && k != "field_labels" && IsHidden(m, k, rules)
  {
    SensitiveExactly(m, rules);
  }

  lemma {:induction false} LabelsExactly(out: Json, v: Json, rules: Rules)
    ensures out == RedactLabels(v, rules) <==> OnlyTexts(out, v, rules)
    decreases v
  {
    var r := RedactLabels(v, rules);
    match v
    case Arr(items) =>
      if out.Arr? && |out.items| == |items| {
        forall i | 0 <= i < |items| ensures out.items[i] == r.items[i] <==> OnlyTexts(out.items[i], items[i], rules) {
          LabelsExactly(out.items[i], items[i], rules);
        }
        SameItems(out.items, r.items);
      }
    case Obj(m) =>
      if out.Obj? && out.entries.Keys == m.Keys {
        forall k | k in m ensures out.entries[k] == r.entries[k] <==> OnlyTexts(out.entries[k], m[k], rules) {
          LabelsExactly(out.entries[k], m[k], rules);
        }
        SameEntries(out.entries, r.entries);
      }
    case _ =>
  }

  lemma SameItems(a: seq<Json>, b: seq<Json>)
    ensures a == b <==> |a| == |b| && forall i :: 0 <= i < |a| ==> a[i] == b[i]
  {}

  lemma SameEntries(m: map<string, Json>, n: map<string, Json>)
    ensures m == n <==> m.Keys == n.Keys && forall k :: k in m ==> m[k] == n[k]
  {}

  /** The output is the one value that is the redaction of the input. */
  lemma {:induction false} RedactExactly(out: Json, v: Json, rules: Rules)
    ensures out == Redact(v, rules) <==> IsRedaction(out, v, rules)
    decreases v
  {
    var r := Redact(v, rules);
    match v
    case Arr(items) =>
      if out.Arr? && |out.items| == |items| {
        forall i | 0 <= i < |items| ensures out.items[i] == r.items[i] <==> IsRedaction(out.items[i], items[i], rules) {
          RedactExactly(out.items[i], items[i], rules);
        }
        SameItems(out.items, r.items);
      }
    case Obj(m) =>
      if out.Obj? && out.entries.Keys == m.Keys {
        forall k | k in m
          ensures out.entries[k] == r.entries[k] <==>
                    if k == "credential_labels" || k == "field_labels" then OnlyTexts(out.entries[k], m[k], rules)
                    else if IsHidden(m, k, rules) then out.entries[k] == Str("[REDACTED]")
                    else IsRedaction(out.entries[k], m[k], rules)
        {
          DroppedExactly(m, k, rules);
          RedactExactly(out.entries[k], m[k], rules);
          LabelsExactly(out.entries[k], m[k], rules);
        }
        SameEntries(out.entries, r.entries);
      }
    case _ =>
  }

  // ---------------------------------------------------------------- what sensitivity sees

  /** The attributes that decide sensitivity do not themselves name secrets. */
  ghost predicate ConsultedArePublic(rules: Rules) {
    forall i :: 0 <= i < |CONSULTED| ==> !rules.secret(CONSULTED[i]) && CONSULTED[i] !in LABEL_MAP_KEYS
  }

  /** Searching for a secret word is a search for it anywhere in the text. */
  ghost predicate FindsAnywhere(rules: Rules) {
    forall a, b, c :: rules.secret(b) ==> rules.secret(a + b + c)
  }

  /** Some part of the printed value names a secret. */
  ghost predicate PrintsSecret(v: Json, rules: Rules) {
    exists a, b, c :: rules.show(v) == a + b + c && rules.secret(b)
  }

  /** Printing an object prints its keys and what it holds; printing a list prints what it holds. */
  ghost predicate PrintsParts(rules: Rules) {
    && (forall m: map<string, Json>, k :: k in m && (rules.secret(k) || rules.secret(rules.show(m[k]))) ==> PrintsSecret(Obj(m), rules))
    && (forall items: seq<Json>, i :: 0 <= i < |items| && rules.secret(rules.show(items[i])) ==> PrintsSecret(Arr(items), rules))
  }

  ghost predicate Facts(rules: Rules) {
    ConsultedArePublic(rules) && FindsAnywhere(rules) && PrintsParts(rules)
  }

  /** The printed value names a secret, so whatever node consults it is sensitive. */
  ghost predicate Betrays(v: Json, rules: Rules) {
    rules.secret(rules.show(v))
  }

  lemma PartBetrays(v: Json, rules: Rules)
    requires FindsAnywhere(rules) && PrintsSecret(v, rules)
    ensures Betrays(v, rules)
  {}

  lemma ObjectBetrays(m: map<string, Json>, k: string, rules: Rules)
    requires Facts(rules) && k in m && (rules.secret(k) || Betrays(m[k], rules))
    ensures Betrays(Obj(m), rules)
  {
    PartBetrays(Obj(m), rules);
  }

  lemma ListBetrays(items: seq<Json>, i: nat, rules: Rules)
    requires Facts(rules) && i < |items| && Betrays(items[i], rules)
    ensures Betrays(Arr(items), rules)
  {
    PartBetrays(Arr(items), rules);
  }

  /** A consulted attribute that names a secret by itself makes the node sensitive. */
  lemma {:induction false} HaystackBetrays(m: map<string, Json>, keys: seq<string>, i: nat, rules: Rules)
    requires FindsAnywhere(rules) && i < |keys| && keys[i] in m && Betrays(m[keys[i]], rules)
    ensures rules.secret(Haystack(m, keys, rules))
  {
    var first := Attribute(m, keys[0], rules);
    if |keys| > 1 {
      var rest := Haystack(m, keys[1..], rules);
      if i == 0 {
        assert Haystack(m, keys, rules) == "" + first + (" " + rest);
      } else {
        HaystackBetrays(m, keys[1..], i - 1, rules);
        assert Haystack(m, keys, rules) == first + " " + rest == (first + " ") + rest + "";
      }
    }
  }

  lemma {:induction false} SameHaystack(m: map<string, Json>, n: map<string, Json>, keys: seq<string>, rules: Rules)
    requires forall i :: 0 <= i < |keys| ==> (keys[i] in m <==> keys[i] in n) && (keys[i] in m ==> m[keys[i]] == n[keys[i]])
    ensures Haystack(m, keys, rules) == Haystack(n, keys, rules)
  {
    if |keys| > 1 {
      SameHaystack(m, n, keys[1..], rules);
    }
  }

  // ---------------------------------------------------------------- independence

  /** A single consulted attribute of the node names a secret by itself. */
  ghost predicate IsPlain(m: map<string, Json>, rules: Rules) {
    exists i :: 0 <= i < |CONSULTED| && CONSULTED[i] in m && Betrays(m[CONSULTED[i]], rules)
  }

  /**
   What may differ even inside a consulted attribute: anything under a secret-named key, and a value-like entry of
   a node that is sensitive because one of its attributes names a secret by itself.
   */
  ghost predicate MayDiffer(m: map<string, Json>, n: map<string, Json>, k: string, rules: Rules) {
    && k !in LABEL_MAP_KEYS
    && (rules.secret(k) || (rules.lower(k) in VALUE_KEYS && IsPlain(m, rules) && IsPlain(n, rules)))
  }

  /** Two values of a consulted attribute that differ only there, at any depth. */
  ghost predicate InnerAlike(a: Json, b: Json, rules: Rules) {
    match (a, b)
    case (Arr(xs), Arr(ys)) => |xs| == |ys| && forall i :: 0 <= i < |xs| ==> InnerAlike(xs[i], ys[i], rules)
    case (Obj(m), Obj(n)) =>
      && m.Keys == n.Keys
      && forall k :: k in m ==>
           if k in LABEL_MAP_KEYS then m[k] == n[k] else MayDiffer(m, n, k, rules) || InnerAlike(m[k], n[k], rules)
    case _ => a == b
  }

  ghost predicate BothDrop(m: map<string, Json>, n: map<string, Json>, k: string, rules: Rules) {
    rules.lower(k) in VALUE_KEYS && IsSensitive(m, rules) && IsSensitive(n, rules)
  }

  /**
   Two snapshots that may differ only in values that redaction drops: those under secret-named keys, and those under
   value-like keys of sensitive nodes. A name or a description, which sensitivity itself consults, may differ where
   both nodes are sensitive.
   */
  ghost predicate Alike(a: Json, b: Json, rules: Rules) {
    match (a, b)
    case (Arr(xs), Arr(ys)) => |xs| == |ys| && forall i :: 0 <= i < |xs| ==> Alike(xs[i], ys[i], rules)
    case (Obj(m), Obj(n)) =>
      && m.Keys == n.Keys
      && forall k :: k in m ==>
           if k in LABEL_MAP_KEYS then m[k] == n[k]
           else if k in CONSULTED then BothDrop(m, n, k, rules) || InnerAlike(m[k], n[k], rules)
           else IsDropped(m, k, rules) || Alike(m[k], n[k], rules)
    case _ => a == b
  }

  /** Different values of a consulted attribute that are alike both name a secret when printed. */
  lemma {:induction false} DifferenceBetrays(a: Json, b: Json, rules: Rules)
    requires Facts(rules) && InnerAlike(a, b, rules) && a != b
    ensures Betrays(a, rules) && Betrays(b, rules)
  {
    match (a, b)
    case (Arr(xs), Arr(ys)) =>
      var i :| 0 <= i < |xs| && xs[i] != ys[i];
      DifferenceBetrays(xs[i], ys[i], rules);
      ListBetrays(xs, i, rules);
      ListBetrays(ys, i, rules);
    case (Obj(m), Obj(n)) =>
      var k :| k in m && m[k] != n[k];
      if rules.secret(k) {
        ObjectBetrays(m, k, rules);
        ObjectBetrays(n, k, rules);
      } else if MayDiffer(m, n, k, rules) {
        PlainBetrays(m, rules);
        PlainBetrays(n, rules);
      } else {
        DifferenceBetrays(m[k], n[k], rules);
        ObjectBetrays(m, k, rules);
        ObjectBetrays(n, k, rules);
      }
    case _ =>
  }

  lemma PlainBetrays(m: map<string, Json>, rules: Rules)
    requires Facts(rules) && IsPlain(m, rules)
    ensures Betrays(Obj(m), rules) && IsSensitive(m, rules)
  {
    var i :| 0 <= i < |CONSULTED| && CONSULTED[i] in m && Betrays(m[CONSULTED[i]], rules);
    ObjectBetrays(m, CONSULTED[i], rules);
    HaystackBetrays(m, CONSULTED, i, rules);
  }

  ghost predicate ConsultedAlike(m: map<string, Json>, n: map<string, Json>, rules: Rules) {
    m.Keys == n.Keys && forall i :: 0 <= i < |CONSULTED| && CONSULTED[i] in m ==> InnerAlike(m[CONSULTED[i]], n[CONSULTED[i]], rules)
  }

  lemma SameSensitivity(m: map<string, Json>, n: map<string, Json>, rules: Rules)
    requires Facts(rules) && ConsultedAlike(m, n, rules)
    ensures IsSensitive(m, rules) == IsSensitive(n, rules)
  {
    if i :| 0 <= i < |CONSULTED| && CONSULTED[i] in m && m[CONSULTED[i]] != n[CONSULTED[i]] {
      DifferenceBetrays(m[CONSULTED[i]], n[CONSULTED[i]], rules);
      HaystackBetrays(m, CONSULTED, i, rules);
      HaystackBetrays(n, CONSULTED, i, rules);
    } else {
      SameHaystack(m, n, CONSULTED, rules);
    }
  }

  lemma ObjectsAgree(m: map<string, Json>, n: map<string, Json>, rules: Rules)
    requires m.Keys == n.Keys && IsSensitive(m, rules) == IsSensitive(n, rules)
    requires forall k :: k in m ==>
               if k in LABEL_MAP_KEYS then m[k] == n[k] else IsDropped(m, k, rules) || Redact(m[k], rules) == Redact(n[k], rules)
    ensures Redact(Obj(m), rules) == Redact(Obj(n), rules)
  {}

  lemma {:induction false} InnerIndependent(a: Json, b: Json, rules: Rules)
    requires Facts(rules) && InnerAlike(a, b, rules)
    ensures Redact(a, rules) == Redact(b, rules)
  {
    match (a, b)
    case (Arr(xs), Arr(ys)) =>
      forall i | 0 <= i < |xs| ensures Redact(xs[i], rules) == Redact(ys[i], rules) {
        InnerIndependent(xs[i], ys[i], rules);
      }
    case (Obj(m), Obj(n)) =>
      InnerSensitivity(m, n, rules);
      forall k | k in m && k !in LABEL_MAP_KEYS ensures IsDropped(m, k, rules) || Redact(m[k], rules) == Redact(n[k], rules) {
        if MayDiffer(m, n, k, rules) {
          MayDifferIsDropped(m, n, k, rules);
        } else {
          InnerIndependent(m[k], n[k], rules);
        }
      }
      ObjectsAgree(m, n, rules);
    case _ =>
  }

  lemma MayDifferIsDropped(m: map<string, Json>, n: map<string, Json>, k: string, rules: Rules)
    requires Facts(rules) && MayDiffer(m, n, k, rules)
    ensures IsDropped(m, k, rules)
  {
    if !rules.secret(k) {
      PlainBetrays(m, rules);
    }
  }

  lemma InnerSensitivity(m: map<string, Json>, n: map<string, Json>, rules: Rules)
    requires Facts(rules) && InnerAlike(Obj(m), Obj(n), rules)
    ensures IsSensitive(m, rules) == IsSensitive(n, rules)
  {
    if IsPlain(m, rules) && IsPlain(n, rules) {
      PlainBetrays(m, rules);
      PlainBetrays(n, rules);
    } else {
      forall i | 0 <= i < |CONSULTED| && CONSULTED[i] in m ensures InnerAlike(m[CONSULTED[i]], n[CONSULTED[i]], rules) {
        assert !MayDiffer(m, n, CONSULTED[i], rules);
      }
      SameSensitivity(m, n, rules);
    }
  }

  lemma OuterSensitivity(m: map<string, Json>, n: map<string, Json>, rules: Rules)
    requires Facts(rules) && Alike(Obj(m), Obj(n), rules)
    ensures IsSensitive(m, rules) == IsSensitive(n, rules)
  {
    if !(IsSensitive(m, rules) && IsSensitive(n, rules)) {
      forall i | 0 <= i < |CONSULTED| && CONSULTED[i] in m ensures InnerAlike(m[CONSULTED[i]], n[CONSULTED[i]], rules) {
        assert CONSULTED[i] in CONSULTED && !BothDrop(m, n, CONSULTED[i], rules);
      }
      SameSensitivity(m, n, rules);
    }
  }

  /**
   What redaction drops has no influence on its output: snapshots of any depth that differ only there are redacted to
   the same result, even where the attributes consulted for sensitivity are nested themselves. Where what is dropped is
   itself consulted, both nodes have to be sensitive.
   */
  lemma {:induction false} RedactionIndependent(a: Json, b: Json, rules: Rules)
    requires Facts(rules) && Alike(a, b, rules)
    ensures Redact(a, rules) == Redact(b, rules)
  {
    match (a, b)
    case (Arr(xs), Arr(ys)) =>
      forall i | 0 <= i < |xs| ensures Redact(xs[i], rules) == Redact(ys[i], rules) {
        RedactionIndependent(xs[i], ys[i], rules);
      }
    case (Obj(m), Obj(n)) =>
      OuterSensitivity(m, n, rules);
      forall k | k in m && k !in LABEL_MAP_KEYS ensures IsDropped(m, k, rules) || Redact(m[k], rules) == Redact(n[k], rules) {
        if k in CONSULTED {
          if !BothDrop(m, n, k, rules) {
            InnerIndependent(m[k], n[k], rules);
          }
        } else if !IsDropped(m, k, rules) {
          RedactionIndependent(m[k], n[k], rules);
        }
      }
      ObjectsAgree(m, n, rules);
    case _ =>
  }

  // ---------------------------------------------------------------- where independence ends

  /** What becomes of a value-like entry that names no secret. */
  lemma ValueLike(m: map<string, Json>, k: string, rules: Rules)
    requires k in m && k !in LABEL_MAP_KEYS && rules.lower(k) in VALUE_KEYS && !rules.secret(k)
    ensures k in Redact(Obj(m), rules).entries
    ensures Redact(Obj(m), rules).entries[k] == if IsSensitive(m, rules) then Str(REDACTED) else Redact(m[k], rules)
  {}

  /** The entries are redacted alike, or the difference is dropped from one of the two objects at least. */
  ghost predicate EntryAlike(m: map<string, Json>, n: map<string, Json>, k: string, rules: Rules)
    requires k in m && k in n
  {
    if k in LABEL_MAP_KEYS then m[k] == n[k]
    else
      || rules.secret(k) || Redact(m[k], rules) == Redact(n[k], rules)
      || (rules.lower(k) in VALUE_KEYS && (IsSensitive(m, rules) || IsSensitive(n, rules)))
  }

  /** A value-like entry that would be dropped if the object were sensitive, and is shown. */
  ghost predicate Shows(m: map<string, Json>, k: string, rules: Rules) {
    && k in m && k !in LABEL_MAP_KEYS && rules.lower(k) in VALUE_KEYS && !rules.secret(k)
    && !IsSensitive(m, rules) && Redact(m[k], rules) != Str(REDACTED)
  }

  lemma ShownDiffers(m: map<string, Json>, n: map<string, Json>, k: string, rules: Rules)
    requires m.Keys == n.Keys && Shows(m, k, rules) && IsSensitive(n, rules)
    ensures Redact(Obj(m), rules) != Redact(Obj(n), rules)
  {
    ValueLike(m, k, rules);
    ValueLike(n, k, rules);
  }

  /** Only one object is sensitive, but the other has nothing to show that is dropped from it. */
  lemma NothingToShow(m: map<string, Json>, n: map<string, Json>, rules: Rules)
    requires m.Keys == n.Keys && (forall x :: x in m ==> EntryAlike(m, n, x, rules))
    requires IsSensitive(m, rules) && !IsSensitive(n, rules) && forall k :: !Shows(n, k, rules)
    ensures Redact(Obj(m), rules) == Redact(Obj(n), rules)
  {
    var a, b := Redact(Obj(m), rules).entries, Redact(Obj(n), rules).entries;
    forall k | k in m ensures a[k] == b[k] {
      assert EntryAlike(m, n, k, rules) && !Shows(n, k, rules);
    }
    assert a == b;
  }

  /**
   Two objects that differ only in what is dropped from one of them at least are redacted alike if and only if both are
   sensitive, or neither is, or the one that is not has nothing to show that is dropped from the other.
   */
  lemma SensitivityDecides(m: map<string, Json>, n: map<string, Json>, rules: Rules)
    requires m.Keys == n.Keys && forall x :: x in m ==> EntryAlike(m, n, x, rules)
    ensures Redact(Obj(m), rules) == Redact(Obj(n), rules)
       <==> IsSensitive(m, rules) == IsSensitive(n, rules) || !exists k :: Shows(m, k, rules) || Shows(n, k, rules)
  {
    if IsSensitive(m, rules) == IsSensitive(n, rules) {
      forall x | x in m && x !in LABEL_MAP_KEYS ensures IsDropped(m, x, rules) || Redact(m[x], rules) == Redact(n[x], rules) {
        assert EntryAlike(m, n, x, rules);
      }
      assert forall x :: x in m && x in LABEL_MAP_KEYS ==> EntryAlike(m, n, x, rules);
      ObjectsAgree(m, n, rules);
    } else if k :| Shows(m, k, rules) || Shows(n, k, rules) {
      if Shows(m, k, rules) {
        ShownDiffers(m, n, k, rules);
      } else {
        ShownDiffers(n, m, k, rules);
      }
    } else if IsSensitive(m, rules) {
      NothingToShow(m, n, rules);
    } else {
      forall x | x in n ensures EntryAlike(n, m, x, rules) {
        assert EntryAlike(m, n, x, rules);
      }
      NothingToShow(n, m, rules);
    }
  }

  // Sensitivity can differ although every difference is dropped: a match may span two attributes, or lie in a name.

  predicate IsAt(s: string, i: nat, w: string) {
    i + |w| <= |s| && s[i..i + |w|] == w
  }

  predicate Occurs(s: string, w: string) {
    exists i :: 0 <= i <= |s| && IsAt(s, i, w)
  }

  /** Two of the words that are searched for. */
  predicate SaysSecret(s: string) {
    Occurs(s, "api key") || Occurs(s, "password")
  }

  /** A node that is sensitive because its type and its name together read "api key". */
  function Nested(value: string): map<string, Json> {
    map["type" := Str("api"), "name" := Str("key"), "value" := Str(value)]
  }

  /** A node labelled by it. */
  function Labelled(value: string): map<string, Json> {
    map["label" := Obj(Nested(value)), "value" := Str("v")]
  }

  /** Python's text of the nested node. */
  function PrintedNested(value: string): string {
    PrintedFront() + value + "'}"
  }

  function PrintedFront(): string {
    "{'type': '" + "api" + "', 'name': '" + "key" + "', 'value': '"
  }

  predicate NoPair(s: string, c: char, d: char) {
    forall i :: 0 <= i < |s| - 1 ==> !(s[i] == c && s[i + 1] == d)
  }

  lemma NoPairJoin(a: string, b: string, c: char, d: char)
    requires NoPair(a, c, d) && NoPair(b, c, d) && !(a != "" && b != "" && a[|a| - 1] == c && b[0] == d)
    ensures NoPair(a + b, c, d)
  {}

  lemma WordHasPair(s: string, w: string, j: nat)
    requires Occurs(s, w) && j + 1 < |w|
    ensures !NoPair(s, w[j], w[j + 1])
  {
    var i :| 0 <= i <= |s| && IsAt(s, i, w);
    assert s[i..i + |w|][j] == s[i + j] && s[i..i + |w|][j + 1] == s[i + j + 1];
  }

  /** Neither pair of letters occurs in the printed node, nor with spaces around it. */
  lemma PrintedLacks(c: char, d: char, pad: string, more: string)
    requires (c == ' ' && d == 'k') || (c == 's' && d == 'w')
    requires pad == "   " && more == "     "
    ensures NoPair(pad + PrintedNested("a") + more, c, d)
  {
    NoPairJoin("{'type': '", "api", c, d);
    NoPairJoin("{'type': '" + "api", "', 'name': '", c, d);
    NoPairJoin("{'type': '" + "api" + "', 'name': '", "key", c, d);
    NoPairJoin("{'type': '" + "api" + "', 'name': '" + "key", "', 'value': '", c, d);
    NoPairJoin(PrintedFront(), "a", c, d);
    NoPairJoin(PrintedFront() + "a", "'}", c, d);
    NoPairJoin(pad, PrintedNested("a"), c, d);
    NoPairJoin(pad + PrintedNested("a"), more, c, d);
  }

  lemma LacksBoth(s: string)
    requires NoPair(s, ' ', 'k') && NoPair(s, 's', 'w')
    ensures !SaysSecret(s)
  {
    if Occurs(s, "api key") {
      WordHasPair(s, "api key", 3);
    }
    if Occurs(s, "password") {
      WordHasPair(s, "password", 3);
    }
  }

  lemma PaddedIsPublic()
    ensures !SaysSecret("   " + PrintedNested("a") + "     ")
  {
    PrintedLacks(' ', 'k', "   ", "     ");
    PrintedLacks('s', 'w', "   ", "     ");
    LacksBoth("   " + PrintedNested("a") + "     ");
  }

  /** Rules that search for those words and print these nodes as Python does. */
  ghost predicate ReadsPlainly(rules: Rules) {
    && (forall s :: rules.secret(s) <==> SaysSecret(s))
    && (forall s :: rules.show(Str(s)) == s)
    && (forall x :: rules.show(Obj(Nested(x))) == PrintedNested(x))
    && rules.lower("value") == "value" && rules.lower("name") == "name" && rules.text("v") == "v"
  }

  lemma Unroll(m: map<string, Json>, key: string, rest: seq<string>, rules: Rules)
    requires rest != []
    ensures Haystack(m, [key] + rest, rules) == Attribute(m, key, rules) + " " + Haystack(m, rest, rules)
  {
    assert ([key] + rest)[1..] == rest;
  }

  const LATER: seq<string> := ["placeholder", "autocomplete", "role", "aria_label", "description"]

  /** A node that has none of the later attributes. */
  lemma LaterAbsent(m: map<string, Json>, rules: Rules)
    requires m.Keys <= {"type", "name", "label", "value"}
    ensures Haystack(m, LATER, rules) == "    "
  {
    Unroll(m, "aria_label", ["description"], rules);
    Unroll(m, "role", ["aria_label"] + ["description"], rules);
    Unroll(m, "autocomplete", ["role"] + (["aria_label"] + ["description"]), rules);
    Unroll(m, "placeholder", ["autocomplete"] + (["role"] + (["aria_label"] + ["description"])), rules);
    assert LATER == ["placeholder"] + (["autocomplete"] + (["role"] + (["aria_label"] + ["description"])));
  }

  lemma FourAttributes(m: map<string, Json>, rules: Rules)
    requires m.Keys <= {"type", "name", "label", "value"}
    ensures Haystack(m, CONSULTED, rules)
         == Attribute(m, "type", rules) + " " + (Attribute(m, "name", rules) + " " + ("" + " " + (Attribute(m, "label", rules) + " " + "    ")))
  {
    LaterAbsent(m, rules);
    Unroll(m, "label", LATER, rules);
    Unroll(m, "id", ["label"] + LATER, rules);
    Unroll(m, "name", ["id"] + (["label"] + LATER), rules);
    Unroll(m, "type", ["name"] + (["id"] + (["label"] + LATER)), rules);
    assert CONSULTED == ["type"] + (["name"] + (["id"] + (["label"] + LATER)));
  }

  lemma LabelledHaystack(value: string, rules: Rules)
    requires ReadsPlainly(rules)
    ensures Haystack(Labelled(value), CONSULTED, rules) == "   " + PrintedNested(value) + "     "
  {
    FourAttributes(Labelled(value), rules);
    Padded(PrintedNested(value));
  }

  lemma Padded(p: string)
    ensures "" + " " + ("" + " " + ("" + " " + (p + " " + "    "))) == "   " + p + "     "
  {}

  lemma NestedHaystack(value: string, rules: Rules)
    requires ReadsPlainly(rules)
    ensures Haystack(Nested(value), CONSULTED, rules) == "" + "api key" + "       "
  {
    FourAttributes(Nested(value), rules);
    assert "api" + " " + ("key" + " " + ("" + " " + ("" + " " + "    "))) == "" + "api key" + "       ";
  }

  lemma Found(a: string, w: string, b: string)
    ensures Occurs(a + w + b, w)
  {
    assert IsAt(a + w + b, |a|, w);
  }

  lemma FoundWithin(a: string, s: string, b: string, w: string)
    requires Occurs(s, w)
    ensures Occurs(a + s + b, w)
  {
    var i :| 0 <= i <= |s| && IsAt(s, i, w);
    assert (a + s + b)[|a| + i..|a| + i + |w|] == s[i..i + |w|];
    assert IsAt(a + s + b, |a| + i, w);
  }

  lemma OthersArePublic()
    ensures !SaysSecret("value")
  {}

  lemma NestedIsSensitive(value: string, rules: Rules)
    requires ReadsPlainly(rules)
    ensures IsSensitive(Nested(value), rules)
  {
    NestedHaystack(value, rules);
    Found("", "api key", "       ");
  }

  lemma LabelledIsPublic(rules: Rules)
    requires ReadsPlainly(rules)
    ensures !IsSensitive(Labelled("a"), rules)
  {
    LabelledHaystack("a", rules);
    PaddedIsPublic();
  }

  lemma LabelledIsSensitive(rules: Rules)
    requires ReadsPlainly(rules)
    ensures IsSensitive(Labelled("password"), rules)
  {
    LabelledHaystack("password", rules);
    Found(PrintedFront(), "password", "'}");
    FoundWithin("   ", PrintedNested("password"), "     ", "password");
  }

  /**
   Two snapshots that differ only in a value which redaction drops, and that are nevertheless redacted differently:
   the nested node is sensitive whatever its value is, because its type and name join to "api key", but printed inside
   the label they do not, so there the value itself decides whether the outer node is sensitive.
   */
  lemma SpanningMatchLeaks(rules: Rules)
    requires ReadsPlainly(rules)
    ensures IsDropped(Nested("a"), "value", rules) && IsDropped(Nested("password"), "value", rules)
    ensures !IsSensitive(Labelled("a"), rules) && IsSensitive(Labelled("password"), rules)
    ensures Redact(Obj(Labelled("a")), rules) != Redact(Obj(Labelled("password")), rules)
  {
    NestedIsSensitive("a", rules);
    NestedIsSensitive("password", rules);
    LabelledIsPublic(rules);
    LabelledIsSensitive(rules);
    OthersArePublic();
    ValueLike(Labelled("a"), "value", rules);
    ValueLike(Labelled("password"), "value", rules);
    assert Redact(Str("v"), rules) == Str("v");
  }

  // A name is dropped from a sensitive node and makes it sensitive at the same time.

  function Named(name: string): map<string, Json> {
    map["name" := Str(name), "value" := Str("v")]
  }

  lemma NamedHaystack(name: string, rules: Rules)
    requires ReadsPlainly(rules)
    ensures Haystack(Named(name), CONSULTED, rules) == " " + name + "       "
  {
    FourAttributes(Named(name), rules);
    assert "" + " " + (name + " " + ("" + " " + ("" + " " + "    "))) == " " + name + "       ";
  }

  lemma NamedIsSensitive(name: string, rules: Rules)
    requires ReadsPlainly(rules) && SaysSecret(name)
    ensures IsSensitive(Named(name), rules)
  {
    NamedHaystack(name, rules);
    FoundWithin(" ", name, "       ", if Occurs(name, "password") then "password" else "api key");
  }

  lemma LoginLacks(c: char, d: char)
    requires (c == ' ' && d == 'k') || (c == 's' && d == 'w')
    ensures NoPair(" " + "login" + "       ", c, d)
  {
    NoPairJoin(" ", "login", c, d);
    NoPairJoin(" " + "login", "       ", c, d);
  }

  lemma LoginIsPublic(rules: Rules)
    requires ReadsPlainly(rules)
    ensures !IsSensitive(Named("login"), rules)
  {
    NamedHaystack("login", rules);
    LoginLacks(' ', 'k');
    LoginLacks('s', 'w');
    LacksBoth(" " + "login" + "       ");
  }

  lemma NamesArePublic()
    ensures !SaysSecret("name") && !SaysSecret("value")
  {}

  /**
   Two snapshots that differ only in a name, which redaction drops from the first: they are redacted differently,
   because that name alone makes the first node sensitive.
   */
  lemma NameDecides(rules: Rules)
    requires ReadsPlainly(rules)
    ensures IsDropped(Named("password"), "name", rules)
    ensures Redact(Obj(Named("password")), rules) != Redact(Obj(Named("login")), rules)
  {
    Found("", "password", "");
    assert "" + "password" + "" == "password";
    NamedIsSensitive("password", rules);
    LoginIsPublic(rules);
    NamesArePublic();
    ValueLike(Named("password"), "value", rules);
    ValueLike(Named("login"), "value", rules);
    assert Redact(Str("v"), rules) == Str("v");
  }

  /** Any two names that say a secret are redacted alike: both nodes are sensitive. */
  lemma SecretNamesAlike(a: string, b: string, rules: Rules)
    requires ReadsPlainly(rules) && SaysSecret(a) && SaysSecret(b)
    ensures Alike(Obj(Named(a)), Obj(Named(b)), rules)
    ensures Redact(Obj(Named(a)), rules) == Redact(Obj(Named(b)), rules)
  {
    NamedIsSensitive(a, rules);
    NamedIsSensitive(b, rules);
    ObjectsAgree(Named(a), Named(b), rules);
  }

  // ---------------------------------------------------------------- what is left in the output

  /**
   Where the output comes from: every text is the placeholder or what the patterns leave of the text in the same
   place of the input, and everything else is as it was.
   */
  ghost predicate CleanOf(out: Json, v: Json, rules: Rules) {
    match out
    case Str(s) => s == REDACTED || (v.Str? && s == rules.text(v.s))
    case Arr(items) => v.Arr? && |v.items| == |items| && forall i :: 0 <= i < |items| ==> CleanOf(items[i], v.items[i], rules)
    case Obj(m) => v.Obj? && v.entries.Keys == m.Keys && forall k :: k in m ==> CleanOf(m[k], v.entries[k], rules)
    case _ => out == v
  }

  /** Outside label maps, every secret-named key holds the placeholder, at every depth. */
  ghost predicate SecretsGone(v: Json, rules: Rules) {
    match v
    case Arr(items) => forall i :: 0 <= i < |items| ==> SecretsGone(items[i], rules)
    case Obj(m) =>
      forall k :: k in m && k !in LABEL_MAP_KEYS ==>
        SecretsGone(m[k], rules) && (rules.secret(k) ==> m[k] == Str(REDACTED))
    case _ => true
  }

  lemma {:induction false} LabelsClean(v: Json, rules: Rules)
    ensures CleanOf(RedactLabels(v, rules), v, rules)
  {
    match v
    case Arr(items) =>
      forall i | 0 <= i < |items| ensures CleanOf(RedactLabels(items[i], rules), items[i], rules) {
        LabelsClean(items[i], rules);
      }
    case Obj(m) =>
      forall k | k in m ensures CleanOf(RedactLabels(m[k], rules), m[k], rules) {
        LabelsClean(m[k], rules);
      }
    case _ =>
  }

  /** No text reaches the output unprocessed, and nothing under a secret-named key reaches it at all. */
  lemma {:induction false} OutputIsClean(v: Json, rules: Rules)
    ensures CleanOf(Redact(v, rules), v, rules) && SecretsGone(Redact(v, rules), rules)
  {
    match v
    case Arr(items) =>
      forall i | 0 <= i < |items|
        ensures CleanOf(Redact(items[i], rules), items[i], rules) && SecretsGone(Redact(items[i], rules), rules)
      {
        OutputIsClean(items[i], rules);
      }
    case Obj(m) =>
      forall k | k in m
        ensures CleanOf(Redact(m[k], rules), m[k], rules) && SecretsGone(Redact(m[k], rules), rules)
        ensures CleanOf(RedactLabels(m[k], rules), m[k], rules)
      {
        OutputIsClean(m[k], rules);
        LabelsClean(m[k], rules);
      }
    case _ =>
  }
}
