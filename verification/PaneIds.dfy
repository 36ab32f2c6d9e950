/**
 Chat session ids for tmux panes: the pane id in unpadded base64url (section 5 of RFC 4648) behind a prefix,
 cut to the longest session id allowed. A pane id is taken as its UTF-8 bytes.
 */
module PaneIds {
  import opened Prelude

  const PREFIX := "tmuxp_"
  const LEGACY_PREFIX := "tmux_"
  const MAX_SESSION_ID := 48
  const DEFAULT_SESSION_ID := "default"

  // ---------------------------------------------------------------- the alphabet

  predicate IsLetter(c: char) {
    'A' <= c <= 'Z' || 'a' <= c <= 'z' || '0' <= c <= '9' || c == '-' || c == '_'
  }

  function Letter(v: nat): (c: char)
    requires v < 64
    ensures IsLetter(c)
  {
    if v < 26 then (v + 65) as char
    else if v < 52 then (v - 26 + 97) as char
    else if v < 62 then (v - 52 + 48) as char
    else if v == 62 then '-' else '_'
  }

  function Value(c: char): (v: nat)
    requires IsLetter(c)
    ensures v < 64 && Letter(v) == c
  {
    if 'A' <= c <= 'Z' then c as int - 65
    else if 'a' <= c <= 'z' then c as int - 97 + 26
    else if '0' <= c <= '9' then c as int - 48 + 52
    else if c == '-' then 62 else 63
  }

  lemma LetterValue(v: nat)
    requires v < 64
    ensures Value(Letter(v)) == v
  {}

  /** Capital letters, small letters, digits, then the hyphen and the underscore. */
  lemma LetterExactly(v: nat)
    requires v < 64
    ensures v < 26 ==> Letter(v) == "ABCDEFGHIJKLMNOPQRSTUVWXYZ"[v]
    ensures 26 <= v < 52 ==> Letter(v) == "abcdefghijklmnopqrstuvwxyz"[v - 26]
    ensures 52 <= v ==> Letter(v) == "0123456789-_"[v - 52]
  {
    if v < 26 {
      Capital(v);
    } else if v < 52 {
      Small(v - 26);
    }
  }

  lemma Capital(i: nat)
    requires i < 26
    ensures "ABCDEFGHIJKLMNOPQRSTUVWXYZ"[i] == (i + 65) as char
  {}

  lemma Small(i: nat)
    requires i < 26
    ensures "abcdefghijklmnopqrstuvwxyz"[i] == (i + 97) as char
  {}

  // ---------------------------------------------------------------- bytes as six-bit groups

  newtype Sextet = x: int | 0 <= x < 64

  type Sextets = seq<Sextet>

  function First(x: Byte): Sextet {
    (x / 4) as Sextet
  }

  function Second(x: Byte, y: Byte): Sextet {
    (x % 4 * 16 + y / 16) as Sextet
  }

  function Third(y: Byte, z: Byte): Sextet {
    (y % 16 * 4 + z / 64) as Sextet
  }

  function Fourth(z: Byte): Sextet {
    (z % 64) as Sextet
  }

  /** Three bytes make four groups; a shorter tail is filled up with zero bits. */
  function Group(b: Bytes): Sextets {
    if |b| == 0 then []
    else if |b| == 1 then [First(b[0]), Second(b[0], 0)]
    else if |b| == 2 then [First(b[0]), Second(b[0], b[1]), Third(b[1], 0)]
    else [First(b[0]), Second(b[0], b[1]), Third(b[1], b[2]), Fourth(b[2])] + Group(b[3..])
  }

  /** Three bytes, and what is left over at the end filled up with zero bits, read as the same number as their groups. */
  ghost predicate ReadsAlike(b: Bytes, g: Sextets, k: nat) {
    && (3 * k + 2 < |b| ==>
          && 4 * k + 3 < |g|
          && b[3 * k] as int * 65536 + b[3 * k + 1] as int * 256 + b[3 * k + 2] as int
          == g[4 * k] as int * 262144 + g[4 * k + 1] as int * 4096 + g[4 * k + 2] as int * 64 + g[4 * k + 3] as int)
    && (3 * k + 2 == |b| ==>
          && 4 * k + 3 == |g|
          && (b[3 * k] as int * 256 + b[3 * k + 1] as int) * 4 == g[4 * k] as int * 4096 + g[4 * k + 1] as int * 64 + g[4 * k + 2] as int)
    && (3 * k + 1 == |b| ==> 4 * k + 2 == |g| && b[3 * k] as int * 16 == g[4 * k] as int * 64 + g[4 * k + 1] as int)
  }

  lemma GroupsOne(x: Byte, y: Byte, z: Byte)
    ensures x as int * 65536 + y as int * 256 + z as int
         == First(x) as int * 262144 + Second(x, y) as int * 4096 + Third(y, z) as int * 64 + Fourth(z) as int
    ensures (x as int * 256 + y as int) * 4 == First(x) as int * 4096 + Second(x, y) as int * 64 + Third(y, 0) as int
    ensures x as int * 16 == First(x) as int * 64 + Second(x, 0) as int
  {}

  lemma {:induction false} GroupExactly(b: Bytes, k: nat)
    ensures ReadsAlike(b, Group(b), k)
  {
    if |b| > 2 {
      GroupsOne(b[0], b[1], b[2]);
      if k > 0 {
        GroupExactly(b[3..], k - 1);
        ShiftAlike(b, Group(b), k);
      }
    } else if |b| == 2 {
      GroupsOne(b[0], b[1], 0);
    } else if |b| == 1 {
      GroupsOne(b[0], 0, 0);
    }
  }

  lemma ShiftAlike(b: Bytes, g: Sextets, k: nat)
    requires |b| > 2 && |g| > 3 && k > 0 && ReadsAlike(b[3..], g[4..], k - 1)
    ensures ReadsAlike(b, g, k)
  {}

  function Byte1(p: Sextet, q: Sextet): Byte {
    (p as int * 4 + q as int / 16) as Byte
  }

  function Byte2(q: Sextet, r: Sextet): Byte {
    (q as int % 16 * 16 + r as int / 4) as Byte
  }

  function Byte3(r: Sextet, s: Sextet): Byte {
    (r as int % 4 * 64 + s as int) as Byte
  }

  /** A single leftover group is an error; leftover bits are dropped. */
  function Ungroup(v: Sextets): Option<Bytes> {
    if |v| == 0 then Some([])
    else if |v| == 1 then None
    else if |v| == 2 then Some([Byte1(v[0], v[1])])
    else if |v| == 3 then Some([Byte1(v[0], v[1]), Byte2(v[1], v[2])])
    else
      var rest := Ungroup(v[4..]);
      if rest.None? then None
      else Some([Byte1(v[0], v[1]), Byte2(v[1], v[2]), Byte3(v[2], v[3])] + rest.value)
  }

  lemma Regroup(x: Byte, y: Byte, z: Byte)
    ensures Byte1(First(x), Second(x, y)) == x
    ensures Byte2(Second(x, y), Third(y, z)) == y
    ensures Byte3(Third(y, z), Fourth(z)) == z
  {}

  lemma OneByte(x: Byte)
    ensures Ungroup(Group([x])) == Some([x])
  {}

  lemma TwoBytes(x: Byte, y: Byte)
    ensures Ungroup(Group([x, y])) == Some([x, y])
  {
    Regroup(x, y, 0);
    assert Group([x, y]) == [First(x), Second(x, y), Third(y, 0)];
  }

  lemma ThreeBytes(x: Byte, y: Byte, z: Byte, rest: Sextets)
    requires Ungroup(rest).Some?
    ensures Ungroup([First(x), Second(x, y), Third(y, z), Fourth(z)] + rest) == Some([x, y, z] + Ungroup(rest).value)
  {
    Regroup(x, y, z);
    assert ([First(x), Second(x, y), Third(y, z), Fourth(z)] + rest)[4..] == rest;
  }

  lemma {:induction false} GroupRoundTrip(b: Bytes)
    ensures Ungroup(Group(b)) == Some(b)
  {
    if |b| == 1 {
      OneByte(b[0]);
      assert b == [b[0]];
    } else if |b| == 2 {
      TwoBytes(b[0], b[1]);
      assert b == [b[0], b[1]];
    } else if |b| > 2 {
      GroupRoundTrip(b[3..]);
      ThreeBytes(b[0], b[1], b[2], Group(b[3..]));
      assert b == [b[0], b[1], b[2]] + b[3..];
    }
  }

  function EncodedLength(n: nat): nat {
    n / 3 * 4 + if n % 3 == 0 then 0 else n % 3 + 1
  }

  lemma {:induction false} GroupLength(b: Bytes)
    ensures |Group(b)| == EncodedLength(|b|)
  {
    if |b| > 2 {
      GroupLength(b[3..]);
    }
  }

  lemma {:induction false} UngroupLength(v: Sextets)
    ensures Ungroup(v).Some? ==> |Ungroup(v).value| == |v| * 3 / 4
  {
    if |v| > 3 {
      UngroupLength(v[4..]);
    }
  }

  // ---------------------------------------------------------------- base64url without padding

  predicate AllLetters(s: string) {
    forall i :: 0 <= i < |s| ==> IsLetter(s[i])
  }

  function Encode(b: Bytes): (s: string)
    ensures |s| == |Group(b)| && AllLetters(s)
  {
    var g := Group(b);
    seq(|g|, i requires 0 <= i < |g| => Letter(g[i] as nat))
  }

  /** What padding to a multiple of four and decoding yields; None for the decoding error. */
  function Decode(s: string): Option<Bytes>
    requires AllLetters(s)
  {
    Ungroup(seq(|s|, i requires 0 <= i < |s| => Value(s[i]) as Sextet))
  }

  /** Decoding undoes encoding, for byte strings of every length. */
  lemma EncodeRoundTrip(b: Bytes)
    ensures Decode(Encode(b)) == Some(b)
  {
    var g, s := Group(b), Encode(b);
    var v := seq(|s|, i requires 0 <= i < |s| => Value(s[i]) as Sextet);
    forall i | 0 <= i < |g| ensures v[i] == g[i] {
      LetterValue(g[i] as nat);
    }
    assert v == g;
    GroupRoundTrip(b);
  }

  lemma EncodeLength(b: Bytes)
    ensures |Encode(b)| == EncodedLength(|b|)
  {
    GroupLength(b);
  }

  lemma DecodeLength(s: string)
    requires AllLetters(s)
    ensures Decode(s).Some? ==> |Decode(s).value| == |s| * 3 / 4
  {
    UngroupLength(seq(|s|, i requires 0 <= i < |s| => Value(s[i]) as Sextet));
  }

  // ---------------------------------------------------------------- session ids

  predicate IsSessionId(s: string) {
    1 <= |s| <= MAX_SESSION_ID && AllLetters(s)
  }

  /** None stands for the error raised on an invalid id. */
  function ValidateSessionId(s: Option<string>): Option<string> {
    var given := if s.Some? && s.value != "" then Strip(s.value) else DEFAULT_SESSION_ID;
    var value := if given == "" then DEFAULT_SESSION_ID else given;
    if IsSessionId(value) then Some(value) else None
  }

  /** No id, or a blank one, stands for the default; any other must be made of one to forty-eight letters, digits, hyphens and underscores. */
  lemma ValidateExactly(s: Option<string>)
    ensures var id := ValidateSessionId(s);
            if s.None? || IsAllSpace(s.value) then id == Some("default")
            else
              && (id.Some? <==> |Strip(s.value)| <= 48 && forall i :: 0 <= i < |Strip(s.value)| ==> IsLetter(Strip(s.value)[i]))
              && (id.Some? ==> id.value == Strip(s.value))
  {
    if s.Some? {
      AllSpaceExactly(s.value);
    }
  }

  function SessionForPane(pane: Bytes): string {
    var full := PREFIX + Encode(pane);
    if |full| > MAX_SESSION_ID then full[..MAX_SESSION_ID] else full
  }

  function Dotted(s: string): string {
    seq(|s|, i requires 0 <= i < |s| => if s[i] == '_' then '.' else s[i])
  }

  datatype Pane = NoPane | FromBytes(bytes: Bytes) | Legacy(name: string)

  /** The pane a valid session id stands for: decoded, or in the older spelling, or none. */
  function PaneForSession(session: string): Pane
    requires AllLetters(session)
  {
    if PREFIX <= session then
      var d := Decode(session[|PREFIX|..]);
      if d.None? then NoPane else FromBytes(d.value)
    else if LEGACY_PREFIX <= session && |session| > |LEGACY_PREFIX| then
      Legacy("%" + Dotted(session[|LEGACY_PREFIX|..]))
    else NoPane
  }

  lemma SessionShape(pane: Bytes)
    ensures AllLetters(SessionForPane(pane)) && PREFIX <= SessionForPane(pane)
    ensures |SessionForPane(pane)| == if |PREFIX| + EncodedLength(|pane|) > MAX_SESSION_ID then MAX_SESSION_ID
                                      else |PREFIX| + EncodedLength(|pane|)
  {
    EncodeLength(pane);
  }

  /** Every pane's id passes session id validation unchanged. */
  lemma SessionIdValid(pane: Bytes)
    ensures ValidateSessionId(Some(SessionForPane(pane))) == Some(SessionForPane(pane))
  {
    SessionShape(pane);
    StripFixed(SessionForPane(pane));
  }

  lemma FitsExactly(n: nat)
    ensures |PREFIX| + EncodedLength(n) <= MAX_SESSION_ID <==> n <= 31
  {}

  /** The pane id comes back from its session id exactly when it is at most 31 bytes long. */
  lemma PaneRoundTripExactly(pane: Bytes)
    ensures AllLetters(SessionForPane(pane))
    ensures PaneForSession(SessionForPane(pane)) == FromBytes(pane) <==> |pane| <= 31
  {
    SessionShape(pane);
    FitsExactly(|pane|);
    var session := SessionForPane(pane);
    var suffix := session[|PREFIX|..];
    if |pane| <= 31 {
      EncodeLength(pane);
      assert session == PREFIX + Encode(pane);
      assert suffix == Encode(pane);
      EncodeRoundTrip(pane);
    } else {
      assert |suffix| == 42;
      DecodeLength(suffix);
    }
  }

  /** So up to 31 bytes, different panes have different session ids. */
  lemma PaneIdsInjective(a: Bytes, b: Bytes)
    requires |a| <= 31 && |b| <= 31 && SessionForPane(a) == SessionForPane(b)
    ensures a == b
  {
    PaneRoundTripExactly(a);
    PaneRoundTripExactly(b);
  }

  /** How a session id is read, by its beginning. */
  lemma PaneExactly(session: string)
    requires AllLetters(session)
    ensures var pane := PaneForSession(session);
            if "tmuxp_" <= session then
              pane == if Decode(session[6..]).Some? then FromBytes(Decode(session[6..]).value) else NoPane
            else if "tmux_" < session then
              && pane.Legacy? && |pane.name| == |session| - 4 && pane.name[0] == '%'
              && forall i :: 5 <= i < |session| ==> pane.name[i - 4] == if session[i] == '_' then '.' else session[i]
            else pane == NoPane
  {}

  /** A session id is the prefix and the encoded pane, or the first forty-eight characters of that. */
  lemma SessionExactly(pane: Bytes)
    ensures var session := SessionForPane(pane);
            && |session| <= 48 && session <= "tmuxp_" + Encode(pane)
            && (session != "tmuxp_" + Encode(pane) ==> |session| == 48)
  {}
}
