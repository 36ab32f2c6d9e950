/**
 Looking for byte markers in a file read in chunks, carrying over just enough of the previous window that a
 marker lying across a chunk boundary is still seen whole.
 */
module Markers {
  import opened Prelude

  /** `marker in content`. */
  ghost predicate Occurs(marker: Bytes, content: Bytes) {
    exists i :: 0 <= i <= |content| - |marker| && OccursAt(marker, content, i)
  }

  ghost predicate OccursAt(marker: Bytes, content: Bytes, i: nat)
    requires i + |marker| <= |content|
  {
    content[i..i + |marker|] == marker
  }

  method Contains(window: Bytes, marker: Bytes) returns (found: bool)
    ensures found <==> Occurs(marker, window)
  {
    var i := 0;
    while i + |marker| <= |window|
      invariant forall j :: 0 <= j < i && j + |marker| <= |window| ==> !OccursAt(marker, window, j)
    {
      if window[i..i + |marker|] == marker {
        assert OccursAt(marker, window, i);
        return true;
      }
      i := i + 1;
    }
    found := false;
  }

  function MaxLength(markers: seq<Bytes>): (n: nat)
    requires markers != []
    ensures forall m :: m in markers ==> |m| <= n
    ensures exists m :: m in markers && |m| == n
  {
    if |markers| == 1 then
      assert markers[0] in markers;
      |markers[0]|
    else
      var rest := MaxLength(markers[1..]);
      assert markers == [markers[0]] + markers[1..];
      if |markers[0]| >= rest then |markers[0]| else rest
  }

  /**
   Not yet seen once the first `pos` bytes have been read. The empty marker is found in any window at all,
   so it is seen as soon as one chunk has been read.
   */
  ghost predicate Unseen(marker: Bytes, content: Bytes, pos: nat)
    requires pos <= |content|
  {
    if marker == [] then pos == 0 else !Occurs(marker, content[..pos])
  }

  /** The start of what is carried over once `pos` bytes have been read. */
  function CarriedFrom(overlap: int, pos: nat): nat {
    if overlap <= 0 then pos else if pos <= overlap then 0 else pos - overlap
  }

  /** Python's `window[-overlap:] if overlap else b""`, including a negative overlap. */
  function Tail(window: Bytes, overlap: int): Bytes {
    if overlap == 0 then []
    else if overlap > 0 then (if |window| <= overlap then window else window[|window| - overlap..])
    else if -overlap <= |window| then window[-overlap..] else []
  }

  /** An occurrence within a stretch of the content. */
  ghost predicate OccursWithin(marker: Bytes, content: Bytes, lo: nat, hi: nat)
    requires lo <= hi <= |content|
  {
    exists i :: lo <= i <= hi - |marker| && OccursAt(marker, content, i)
  }

  lemma SliceAt(marker: Bytes, content: Bytes, lo: nat, hi: nat, i: nat)
    requires lo <= i && i + |marker| <= hi <= |content|
    ensures OccursAt(marker, content[lo..hi], i - lo) <==> OccursAt(marker, content, i)
  {
    var window, n := content[lo..hi], |marker|;
    var a, b := window[i - lo..i - lo + n], content[i..i + n];
    forall k | 0 <= k < n ensures a[k] == b[k] {
      assert a[k] == window[i - lo + k];
    }
    assert a == b;
  }

  lemma SliceOccurs(marker: Bytes, content: Bytes, lo: nat, hi: nat)
    requires lo <= hi <= |content|
    ensures Occurs(marker, content[lo..hi]) <==> OccursWithin(marker, content, lo, hi)
  {
    var window := content[lo..hi];
    if Occurs(marker, window) {
      var j :| 0 <= j <= |window| - |marker| && OccursAt(marker, window, j);
      SliceAt(marker, content, lo, hi, lo + j);
    }
    if OccursWithin(marker, content, lo, hi) {
      var i :| lo <= i <= hi - |marker| && OccursAt(marker, content, i);
      SliceAt(marker, content, lo, hi, i);
    }
  }

  /** An occurrence in what has been read is either an old one or lies within the current window. */
  lemma AcrossTheBoundary(marker: Bytes, content: Bytes, from: nat, pos: nat, next: nat)
    requires from <= pos <= next <= |content| && marker != []
    requires from == 0 || from + |marker| <= pos + 1
    ensures Occurs(marker, content[..next]) <==> Occurs(marker, content[..pos]) || Occurs(marker, content[from..next])
  {
    SliceOccurs(marker, content, 0, next);
    SliceOccurs(marker, content, 0, pos);
    SliceOccurs(marker, content, from, next);
  }

  lemma EmptyOccurs(window: Bytes)
    ensures Occurs([], window)
  {
    assert OccursAt([], window, 0);
  }

  /** Reading one more chunk: what is still unseen is what was unseen and is not in the window. */
  lemma UnseenStep(marker: Bytes, content: Bytes, overlap: int, pos: nat, next: nat)
    requires pos < next <= |content| && |marker| <= overlap + 1
    ensures var window := content[CarriedFrom(overlap, pos)..next];
            Unseen(marker, content, next) <==> Unseen(marker, content, pos) && !Occurs(marker, window)
  {
    if marker == [] {
      EmptyOccurs(content[CarriedFrom(overlap, pos)..next]);
    } else {
      AcrossTheBoundary(marker, content, CarriedFrom(overlap, pos), pos, next);
    }
  }

  /** Drops from `remaining` every marker that occurs in the window, one at a time. */
  method Sift(remaining: set<Bytes>, window: Bytes) returns (left: set<Bytes>)
    ensures forall m :: m in left <==> m in remaining && !Occurs(m, window)
  {
    left := remaining;
    var todo := remaining;
    while todo != {}
      invariant todo <= left <= remaining
      invariant forall m :: m in left && m !in todo ==> !Occurs(m, window)
      invariant forall m :: m in remaining && m !in left ==> Occurs(m, window)
      decreases todo
    {
      var m :| m in todo;
      var found := Contains(window, m);
      if found {
        left := left - {m};
      }
      todo := todo - {m};
    }
  }

  /** The markers of the list that satisfy membership, in order and with repetitions. */
  function Among(markers: seq<Bytes>, left: set<Bytes>): (r: seq<Bytes>)
    ensures forall m :: m in r <==> m in markers && m in left
  {
    if markers == [] then []
    else (if markers[0] in left then [markers[0]] else []) + Among(markers[1..], left)
  }

  /** The list is gone through in order, marker by marker. */
  lemma {:induction false} AmongConcat(a: seq<Bytes>, b: seq<Bytes>, left: set<Bytes>)
    ensures Among(a + b, left) == Among(a, left) + Among(b, left)
  {
    if a == [] {
      assert a + b == b;
    } else {
      AmongConcat(a[1..], b, left);
      assert (a + b)[0] == a[0] && (a + b)[1..] == a[1..] + b;
      Regroup(if a[0] in left then [a[0]] else [], Among(a[1..], left), Among(b, left));
    }
  }

  lemma Regroup(x: seq<Bytes>, y: seq<Bytes>, z: seq<Bytes>)
    ensures x + (y + z) == x + y + z
  {}

  lemma AmongOne(m: Bytes, left: set<Bytes>)
    ensures Among([m], left) == if m in left then [m] else []
  {}

  lemma TailIsCarried(content: Bytes, overlap: int, pos: nat, next: nat)
    requires pos < next <= |content| && overlap >= 0
    ensures Tail(content[CarriedFrom(overlap, pos)..next], overlap) == content[CarriedFrom(overlap, next)..next]
  {}

  method ScanChunks(content: Bytes, markers: seq<Bytes>, chunk: nat) returns (remaining: set<Bytes>)
    requires chunk > 0 && markers != []
    ensures forall m :: m in remaining <==> m in markers && Unseen(m, content, |content|)
  {
    remaining := set m | m in markers;
    var overlap := MaxLength(markers) - 1;
    var tail: Bytes := [];
    var pos := 0;
    while remaining != {}
      invariant pos <= |content|
      invariant forall m :: m in remaining <==> m in markers && Unseen(m, content, pos)
      invariant overlap >= 0 || pos == 0 ==> tail == content[CarriedFrom(overlap, pos)..pos]
      invariant overlap < 0 && pos > 0 ==> remaining == {}
      decreases |content| - pos
    {
      if pos == |content| {
        return;
      }
      var next := if pos + chunk <= |content| then pos + chunk else |content|;
      var window := tail + content[pos..next];
      assert window == content[CarriedFrom(overlap, pos)..next];
      remaining := Sift(remaining, window);
      forall m | m in markers
        ensures Unseen(m, content, next) <==> Unseen(m, content, pos) && !Occurs(m, window)
      {
        UnseenStep(m, content, overlap, pos, next);
      }
      tail := Tail(window, overlap);
      if overlap >= 0 {
        TailIsCarried(content, overlap, pos, next);
      }
      pos := next;
    }
    forall m | m in markers ensures !Unseen(m, content, |content|) {
      SeenStays(m, content, pos);
    }
  }

  lemma SeenStays(marker: Bytes, content: Bytes, pos: nat)
    requires pos <= |content| && !Unseen(marker, content, pos)
    ensures !Unseen(marker, content, |content|)
  {
    SliceOccurs(marker, content, 0, pos);
    SliceOccurs(marker, content, 0, |content|);
  }

  /** A marker is reported missing. */
  ghost predicate Missing(marker: Bytes, content: Bytes) {
    !Occurs(marker, content) || (marker == [] && content == [])
  }

  /**
   The chunked search refines plain search: for every content, chunk size and non-empty list of markers, it
   reports, in list order, exactly the markers that do not occur in the whole content; the one deviation is
   the empty marker, reported missing from an empty file because no chunk was ever read.
   */
  method MissingBinaryMarkers(content: Bytes, markers: seq<Bytes>, chunk: nat) returns (missing: seq<Bytes>)
    requires chunk > 0 && markers != []
    ensures forall m :: m in missing <==> m in markers && Missing(m, content)
    ensures missing == Among(markers, set m | m in markers && Missing(m, content))
  {
    var remaining := ScanChunks(content, markers, chunk);
    assert content[..|content|] == content;
    if [] in markers {
      EmptyOccurs(content);
    }
    assert remaining == set m | m in markers && Missing(m, content);
    missing := Among(markers, remaining);
  }

  /** The same search for source files, where an empty list of markers is allowed. */
  method MissingFileMarkers(content: Bytes, markers: seq<Bytes>, chunk: nat) returns (missing: seq<Bytes>)
    requires chunk > 0
    ensures forall m :: m in missing <==> m in markers && Missing(m, content)
    ensures missing == Among(markers, set m | m in markers && Missing(m, content))
  {
    if markers == [] {
      missing := [];
    } else {
      missing := MissingBinaryMarkers(content, markers, chunk);
    }
  }

  /** The report means "does not occur" for every marker exactly when no empty marker is sought in an empty file. */
  lemma ReportExact(content: Bytes, markers: seq<Bytes>)
    ensures (forall m :: m in markers ==> (Missing(m, content) <==> !Occurs(m, content)))
            <==> !(content == [] && [] in markers)
  {
    EmptyOccurs(content);
  }
}
