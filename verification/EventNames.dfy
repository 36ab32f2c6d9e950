/**
 Names of queued input events. The consumer sorts file names as text; events were stamped with a number.
 The two orders agree as long as the decimal stamps have the same width.
 */
module EventNames {
  import opened Prelude

  // ---------------------------------------------------------------- dictionary order

  predicate LexLess(a: string, b: string) {
    if b == [] then false
    else if a == [] then true
    else if a[0] != b[0] then a[0] < b[0]
    else LexLess(a[1..], b[1..])
  }

  lemma {:induction false} LexTotal(a: string, b: string)
    ensures a == b || LexLess(a, b) || LexLess(b, a)
  {
    if a != [] && b != [] && a[0] == b[0] {
      LexTotal(a[1..], b[1..]);
      assert a == [a[0]] + a[1..] && b == [b[0]] + b[1..];
    }
  }

  lemma {:induction false} LexAsymmetric(a: string, b: string)
    requires LexLess(a, b)
    ensures !LexLess(b, a) && a != b
  {
    if a != [] && a[0] == b[0] {
      LexAsymmetric(a[1..], b[1..]);
    }
  }

  lemma {:induction false} LexTransitive(a: string, b: string, c: string)
    requires LexLess(a, b) && LexLess(b, c)
    ensures LexLess(a, c)
  {
    if a != [] && a[0] == b[0] && b[0] == c[0] {
      LexTransitive(a[1..], b[1..], c[1..]);
    }
  }

  /** Texts of equal length decide the order before whatever follows them. */
  lemma {:induction false} LexSameWidth(x: string, y: string, s: string, t: string)
    requires |x| == |y|
    ensures LexLess(x + s, y + t) <==> LexLess(x, y) || (x == y && LexLess(s, t))
  {
    if x == [] {
      assert x + s == s && y + t == t;
    } else {
      LexSameWidth(x[1..], y[1..], s, t);
      assert (x + s)[1..] == x[1..] + s && (y + t)[1..] == y[1..] + t;
      assert x == [x[0]] + x[1..] && y == [y[0]] + y[1..];
    }
  }

  // ---------------------------------------------------------------- decimal numerals

  function Digit(d: nat): char
    requires d < 10
  {
    (d + 48) as char
  }

  function Decimal(n: nat): (s: string)
    ensures |s| >= 1
  {
    if n < 10 then [Digit(n)] else Decimal(n / 10) + [Digit(n % 10)]
  }

  function Pow10(k: nat): (p: nat)
    ensures p >= 1
  {
    if k == 0 then 1 else 10 * Pow10(k - 1)
  }

  lemma {:induction false} DecimalWidth(n: nat, k: nat)
    requires k >= 1 && Pow10(k - 1) <= n < Pow10(k)
    ensures |Decimal(n)| == k
  {
    if k > 1 {
      assert Pow10(k - 1) == 10 * Pow10(k - 2);
      DecimalWidth(n / 10, k - 1);
    }
  }

  /** What a numeral stands for, read digit by digit. */
  function Reads(s: string): int {
    if s == "" then 0 else 10 * Reads(s[..|s| - 1]) + (s[|s| - 1] as int - '0' as int)
  }

  /** The numeral of a number is made of digits, reads as that number, and has no zero in front. */
  lemma {:induction false} DecimalReads(n: nat)
    ensures Reads(Decimal(n)) == n && (forall i :: 0 <= i < |Decimal(n)| ==> '0' <= Decimal(n)[i] <= '9')
    ensures n > 0 ==> Decimal(n)[0] != '0'
  {
    if n < 10 {
      assert Decimal(n)[..0] == "";
    } else {
      DecimalReads(n / 10);
      assert Decimal(n)[..|Decimal(n)| - 1] == Decimal(n / 10);
    }
  }

  /** Between numerals of equal width, dictionary order is numeric order. */
  lemma {:induction false} DecimalOrder(a: nat, b: nat)
    requires |Decimal(a)| == |Decimal(b)|
    ensures LexLess(Decimal(a), Decimal(b)) <==> a < b
    ensures Decimal(a) == Decimal(b) <==> a == b
  {
    if a < 10 || b < 10 {
      assert |Decimal(a)| == 1 && |Decimal(b)| == 1;
      assert a < 10 && b < 10;
    } else {
      DecimalOrder(a / 10, b / 10);
      LexSameWidth(Decimal(a / 10), Decimal(b / 10), [Digit(a % 10)], [Digit(b % 10)]);
      SnocEqual(Decimal(a / 10), Decimal(b / 10), Digit(a % 10), Digit(b % 10));
    }
  }

  lemma SnocEqual(x: string, y: string, c: char, d: char)
    ensures x + [c] == y + [d] <==> x == y && c == d
  {
    if x + [c] == y + [d] {
      assert (x + [c])[..|x|] == x && (y + [d])[..|y|] == y;
      assert (x + [c])[|x|] == c && (y + [d])[|y|] == d;
    }
  }

  // ---------------------------------------------------------------- event names

  /** A stamp in nanoseconds and a random tail. */
  datatype Tag = Tag(stamp: nat, uuid: string)

  function EventId(t: Tag): string {
    "evt_" + Decimal(t.stamp) + "_" + t.uuid
  }

  function FileName(t: Tag): string {
    EventId(t) + ".json"
  }

  /** Nineteen digits: from September 2001 until the year 2286. */
  predicate InEra(stamp: nat) {
    Pow10(18) <= stamp < Pow10(19)
  }

  lemma NameParts(a: Tag, b: Tag)
    requires |Decimal(a.stamp)| == |Decimal(b.stamp)|
    ensures LexLess(FileName(a), FileName(b)) <==>
              LexLess(Decimal(a.stamp), Decimal(b.stamp))
              || (Decimal(a.stamp) == Decimal(b.stamp) && LexLess("_" + a.uuid + ".json", "_" + b.uuid + ".json"))
  {
    var x, y := Decimal(a.stamp), Decimal(b.stamp);
    var s, t := "_" + a.uuid + ".json", "_" + b.uuid + ".json";
    LexIrreflexive("evt_");
    LexSameWidth("evt_", "evt_", x + s, y + t);
    LexSameWidth(x, y, s, t);
    assert FileName(a) == "evt_" + (x + s) && FileName(b) == "evt_" + (y + t);
  }

  /** Within the era, an earlier file name never carries a later stamp, and an earlier stamp gives an earlier name. */
  lemma NameOrder(a: Tag, b: Tag)
    requires InEra(a.stamp) && InEra(b.stamp)
    ensures LexLess(FileName(a), FileName(b)) ==> a.stamp <= b.stamp
    ensures a.stamp < b.stamp ==> LexLess(FileName(a), FileName(b))
  {
    DecimalWidth(a.stamp, 19);
    DecimalWidth(b.stamp, 19);
    DecimalOrder(a.stamp, b.stamp);
    NameParts(a, b);
  }

  /** Events with one and the same stamp are told apart by their random tails, not by arrival. */
  lemma TiesByTail(a: Tag, b: Tag)
    requires a.stamp == b.stamp
    ensures LexLess(FileName(a), FileName(b)) <==> LexLess("_" + a.uuid + ".json", "_" + b.uuid + ".json")
  {
    NameParts(a, b);
    LexIrreflexive(Decimal(a.stamp));
  }

  lemma {:induction false} LexIrreflexive(a: string)
    ensures !LexLess(a, a)
  {
    if a != [] {
      LexIrreflexive(a[1..]);
    }
  }

  /** A number without its last j digits. */
  function Leading(n: nat, j: nat): nat {
    if j == 0 then n else Leading(n / 10, j - 1)
  }

  lemma {:induction false} DecimalSplit(n: nat, j: nat) returns (tail: string)
    requires j < |Decimal(n)|
    ensures |tail| == j && Decimal(n) == Decimal(Leading(n, j)) + tail
  {
    if j == 0 {
      tail := "";
      assert Decimal(n) + "" == Decimal(n);
    } else {
      var front := DecimalSplit(n / 10, j - 1);
      tail := front + [Digit(n % 10)];
      assert Decimal(Leading(n, j)) + front + [Digit(n % 10)] == Decimal(Leading(n, j)) + tail;
    }
  }

  /**
   Without the era the orders disagree: the numeral of a wider, and so greater, number sorts before that of a narrower
   one exactly when its leading digits make the smaller number, as ten before nine.
   */
  lemma WiderSortsFirstExactly(a: nat, b: nat, j: nat)
    requires |Decimal(a)| == |Decimal(b)| + j
    ensures LexLess(Decimal(a), Decimal(b)) <==> Leading(a, j) < b
  {
    var tail := DecimalSplit(a, j);
    DecimalOrder(Leading(a, j), b);
    LexSameWidth(Decimal(Leading(a, j)), Decimal(b), tail, "");
    assert Decimal(b) + "" == Decimal(b);
  }

  // ---------------------------------------------------------------- sorting

  predicate IsLeast(s: set<string>, m: string) {
    m in s && forall x :: x in s && x != m ==> LexLess(m, x)
  }

  lemma {:induction false} LeastExists(s: set<string>)
    requires s != {}
    ensures exists m :: IsLeast(s, m)
    decreases s
  {
    var k :| k in s;
    var rest := s - {k};
    if rest == {} {
      assert s == {k};
      assert IsLeast(s, k);
    } else {
      LeastExists(rest);
      var m :| IsLeast(rest, m);
      LexTotal(k, m);
      if LexLess(k, m) {
        forall x | x in s && x != k ensures LexLess(k, x) {
          if x != m { LexTransitive(k, m, x); }
        }
        assert IsLeast(s, k);
      } else {
        assert IsLeast(s, m);
      }
    }
  }

  function Least(s: set<string>): (m: string)
    requires s != {}
    ensures IsLeast(s, m)
  {
    LeastExists(s);
    assert forall a, b :: IsLeast(s, a) && IsLeast(s, b) ==> a == b by {
      forall a, b | IsLeast(s, a) && IsLeast(s, b) ensures a == b {
        if a != b { LexAsymmetric(a, b); }
      }
    }
    var m :| IsLeast(s, m);
    m
  }

  predicate IsSorted(names: seq<string>) {
    forall i, j :: 0 <= i < j < |names| ==> LexLess(names[i], names[j])
  }

  /** Python's `sorted` of a set of names. */
  function Sorted(s: set<string>): (r: seq<string>)
    ensures forall x :: x in r <==> x in s
    ensures IsSorted(r)
    decreases |s|
  {
    if s == {} then []
    else
      var m := Least(s);
      var rest := Sorted(s - {m});
      assert forall i :: 0 <= i < |rest| ==> rest[i] in rest;
      [m] + rest
  }

  lemma SortedHead(names: seq<string>)
    requires IsSorted(names) && names != []
    ensures names[0] !in names[1..] && IsSorted(names[1..])
  {
    forall i | 0 < i < |names| ensures names[i] != names[0] {
      LexAsymmetric(names[0], names[i]);
    }
  }

  lemma SameEmpty(a: seq<string>, b: seq<string>)
    requires forall x :: x in a <==> x in b
    ensures a == [] <==> b == []
  {
    if a != [] {
      assert a[0] in b;
    }
    if b != [] {
      assert b[0] in a;
    }
  }

  /** A set of names has one sorted listing. */
  lemma {:induction false} SortedUnique(a: seq<string>, b: seq<string>)
    requires IsSorted(a) && IsSorted(b) && forall x :: x in a <==> x in b
    ensures a == b
  {
    SameEmpty(a, b);
    if a != [] {
      var x, y := a[0], b[0];
      assert x in b && y in a;
      SameFirst(a, b);
      SortedHead(a);
      SortedHead(b);
      assert forall z :: z in a <==> z == x || z in a[1..];
      assert forall z :: z in b <==> z == x || z in b[1..];
      SortedUnique(a[1..], b[1..]);
      assert a == [x] + a[1..] && b == [x] + b[1..];
    }
  }

  lemma SameFirst(a: seq<string>, b: seq<string>)
    requires IsSorted(a) && IsSorted(b) && a != [] && b != [] && a[0] in b && b[0] in a
    ensures a[0] == b[0]
  {
    var i :| 0 <= i < |b| && b[i] == a[0];
    var j :| 0 <= j < |a| && a[j] == b[0];
    if i > 0 {
      LexAsymmetric(b[0], b[i]);
    }
  }
}
