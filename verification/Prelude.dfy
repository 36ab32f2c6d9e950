/** Small shared vocabulary: optional values, Python's `str.strip`, and prefix tests. */
module Prelude {

  datatype Option<+T> = None | Some(value: T)

  newtype Byte = x: int | 0 <= x < 256

  type Bytes = seq<Byte>

  function MaxReal(a: real, b: real): real {
    if a >= b then a else b
  }

  function MaxInt(a: int, b: int): int {
    if a >= b then a else b
  }

  /** Python's `a % n` for positive n, by repeated addition or subtraction. */
  function Mod(a: int, n: nat): (r: nat)
    requires n > 0
    ensures r < n
    ensures 0 <= a < n ==> r == a
    decreases if a < 0 then n - a else a
  {
    if a < 0 then Mod(a + n, n) else if a < n then a else Mod(a - n, n)
  }

  lemma MulStep(n: int, k: int)
    ensures n * (k + 1) == n * k + n
  {}

  /** It differs from a by a multiple of n. */
  lemma {:induction false} ModMeaning(a: int, n: nat) returns (k: int)
    requires n > 0
    ensures a == n * k + Mod(a, n)
    decreases if a < 0 then n - a else a
  {
    if a < 0 {
      var m := ModMeaning(a + n, n);
      k := m - 1;
      MulStep(n, k);
    } else if a < n {
      k := 0;
    } else {
      var m := ModMeaning(a - n, n);
      k := m + 1;
      MulStep(n, m);
    }
  }

  /** A clock that never runs backwards. */
  predicate NonDecreasing(ts: seq<real>) {
    forall i, j :: 0 <= i <= j < |ts| ==> ts[i] <= ts[j]
  }

  /** The characters for which Python's `str.isspace` holds. */
  predicate IsSpace(c: char) {
    var n := c as int;
    || 0x09 <= n <= 0x0d
    || 0x1c <= n <= 0x20
    || n == 0x85
    || n == 0xa0
    || n == 0x1680
    || 0x2000 <= n <= 0x200a
    || n == 0x2028
    || n == 0x2029
    || n == 0x202f
    || n == 0x205f
    || n == 0x3000
  }

  function StripLeft(s: string): (r: string)
    ensures |r| <= |s|
    ensures r != "" ==> !IsSpace(r[0])
    ensures s == "" || !IsSpace(s[0]) ==> r == s
  {
    if s != "" && IsSpace(s[0]) then StripLeft(s[1..]) else s
  }

  function StripRight(s: string): (r: string)
    ensures r <= s
    ensures r != "" ==> !IsSpace(r[|r| - 1])
    ensures s == "" || !IsSpace(s[|s| - 1]) ==> r == s
  {
    if s != "" && IsSpace(s[|s| - 1]) then StripRight(s[..|s| - 1]) else s
  }

  function Strip(s: string): string {
    StripRight(StripLeft(s))
  }

  /** Text without white space at either end is left alone, so stripping twice is stripping once. */
  lemma StripFixed(s: string)
    requires s != "" ==> !IsSpace(s[0]) && !IsSpace(s[|s| - 1])
    ensures Strip(s) == s
  {}

  lemma StripIdempotent(s: string)
    ensures Strip(Strip(s)) == Strip(s)
  {}

  /** Of the ASCII characters, those from tab to carriage return, the four separators and the blank are white space. */
  lemma AsciiSpace(c: char)
    requires c as int < 128
    ensures IsSpace(c) <==> '\t' <= c <= '\r' || '\U{1c}' <= c <= ' '
  {}

  predicate IsAllSpace(s: string) {
    forall i :: 0 <= i < |s| ==> IsSpace(s[i])
  }

  /** `core` is what is left of s without the white space around it. */
  ghost predicate IsCore(s: string, core: string) {
    && (core != "" ==> !IsSpace(core[0]) && !IsSpace(core[|core| - 1]))
    && exists a, b :: IsAllSpace(a) && IsAllSpace(b) && s == a + core + b
  }

  lemma {:induction false} StripLeftDrops(s: string) returns (a: string)
    ensures IsAllSpace(a) && s == a + StripLeft(s)
  {
    if s != "" && IsSpace(s[0]) {
      var rest := StripLeftDrops(s[1..]);
      a := [s[0]] + rest;
    } else {
      a := "";
    }
  }

  lemma {:induction false} StripRightDrops(s: string) returns (b: string)
    ensures IsAllSpace(b) && s == StripRight(s) + b
  {
    if s != "" && IsSpace(s[|s| - 1]) {
      var rest := StripRightDrops(s[..|s| - 1]);
      b := rest + [s[|s| - 1]];
      assert s == s[..|s| - 1] + [s[|s| - 1]];
    } else {
      b := "";
    }
  }

  /** Stripping removes white space at both ends, all of it, and nothing else. */
  lemma StripIsCore(s: string)
    ensures IsCore(s, Strip(s))
  {
    var a := StripLeftDrops(s);
    var b := StripRightDrops(StripLeft(s));
    assert s == a + Strip(s) + b;
  }

  lemma CoresStartAlike(a: string, c: string, b: string, x: string, d: string, y: string)
    requires a + c + b == x + d + y && IsAllSpace(a) && IsAllSpace(x) && c != "" && d != "" && !IsSpace(c[0]) && !IsSpace(d[0])
    ensures |a| == |x|
  {
    var s := a + c + b;
    assert s[|a|] == c[0] && s[|x|] == d[0];
  }

  lemma CoresEndAlike(a: string, c: string, b: string, x: string, d: string, y: string)
    requires a + c + b == x + d + y && IsAllSpace(b) && IsAllSpace(y) && c != "" && d != ""
    requires !IsSpace(c[|c| - 1]) && !IsSpace(d[|d| - 1])
    ensures |b| == |y|
  {
    var s := a + c + b;
    var i, j := |a| + |c| - 1, |x| + |d| - 1;
    assert s[i] == c[|c| - 1] && s[j] == d[|d| - 1];
  }

  lemma SpaceHasNoCore(a: string, b: string, x: string, d: string, y: string)
    requires a + b == x + d + y && IsAllSpace(a) && IsAllSpace(b) && d != ""
    ensures IsSpace(d[0])
  {
    assert (x + d + y)[|x|] == d[0];
    assert d[0] in a + b;
  }

  /** And there is only one such text. */
  lemma CoreUnique(s: string, c: string, d: string)
    requires IsCore(s, c) && IsCore(s, d)
    ensures c == d
  {
    var a, b :| IsAllSpace(a) && IsAllSpace(b) && s == a + c + b;
    var x, y :| IsAllSpace(x) && IsAllSpace(y) && s == x + d + y;
    if c == "" {
      assert s == a + b;
      if d != "" {
        SpaceHasNoCore(a, b, x, d, y);
      }
    } else if d == "" {
      assert s == x + y;
      SpaceHasNoCore(x, y, a, c, b);
    } else {
      CoresStartAlike(a, c, b, x, d, y);
      CoresEndAlike(a, c, b, x, d, y);
      assert c == s[|a|..|s| - |b|] == d;
    }
  }

  /** Nothing is left exactly of a text that is all white space. */
  lemma AllSpaceExactly(s: string)
    ensures Strip(s) == "" <==> IsAllSpace(s)
  {
    StripIsCore(s);
    if IsAllSpace(s) {
      var a, b := s, "";
      assert IsAllSpace(a) && IsAllSpace(b) && s == a + "" + b;
      CoreUnique(s, "", Strip(s));
    }
    if Strip(s) == "" {
      var a, b :| IsAllSpace(a) && IsAllSpace(b) && s == a + Strip(s) + b;
      assert s == a + b;
    }
  }

  /** Two texts that differ at most in the white space around them. */
  ghost predicate SameText(s: string, t: string) {
    exists core :: IsCore(s, core) && IsCore(t, core)
  }

  /** Stripping tells two texts apart exactly when more than white space around them differs. */
  lemma StripExactly(s: string, t: string)
    ensures Strip(s) == Strip(t) <==> SameText(s, t)
  {
    StripIsCore(s);
    StripIsCore(t);
    if SameText(s, t) {
      var core :| IsCore(s, core) && IsCore(t, core);
      CoreUnique(s, core, Strip(s));
      CoreUnique(t, core, Strip(t));
    }
  }

  lemma {:induction false} SubsetSize<T>(a: set<T>, b: set<T>)
    requires a <= b
    ensures |a| <= |b|
    ensures |a| == |b| ==> a == b
  {
    assert b == a + (b - a);
    assert |b| == |a| + |b - a|;
  }
}
