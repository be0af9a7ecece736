/**
 * Searching and splitting sequences, as Python does it with `sep in s`,
 * `s.split(sep)`, `s.split(sep, 1)` and `sep.join(parts)`. Generic in the
 * element type, so that one definition serves both `str` (sequences of
 * characters) and `bytes` (sequences of byte values).
 */
module Seqs {
  import opened Wrappers

  /** `sep` occurs in `s` starting at index `i`. */
  predicate OccursAt<T(==)>(s: seq<T>, sep: seq<T>, i: int) {
    0 <= i && i + |sep| <= |s| && s[i..i + |sep|] == sep
  }

  /** The leftmost occurrence of `sep` in `s` at index `k` or later. */
  function FindFrom<T(==)>(s: seq<T>, sep: seq<T>, k: nat): (r: Option<nat>)
    ensures r.Some? ==> k <= r.value && OccursAt(s, sep, r.value)
    ensures r.Some? ==> forall j :: k <= j < r.value ==> !OccursAt(s, sep, j)
    ensures r.None? ==> forall j :: k <= j ==> !OccursAt(s, sep, j)
    decreases |s| - k
  {
    if k + |sep| > |s| then None
    else if s[k..k + |sep|] == sep then Some(k)
    else FindFrom(s, sep, k + 1)
  }

  /** Python's `s.find(sep)`: the leftmost occurrence of `sep`, if any. */
  function Find<T(==)>(s: seq<T>, sep: seq<T>): (r: Option<nat>)
    ensures r.Some? ==> OccursAt(s, sep, r.value)
    ensures r.Some? ==> forall j :: 0 <= j < r.value ==> !OccursAt(s, sep, j)
    ensures r.None? ==> forall j :: !OccursAt(s, sep, j)
  {
    FindFrom(s, sep, 0)
  }

  /** Python's `sep in s`. */
  function Contains<T(==)>(s: seq<T>, sep: seq<T>): (b: bool)
    ensures b <==> exists i :: OccursAt(s, sep, i)
  {
    Find(s, sep).Some?
  }

  /** Python's `sep.join(parts)`. */
  function Join<T>(parts: seq<seq<T>>, sep: seq<T>): seq<T> {
    if |parts| == 0 then []
    else if |parts| == 1 then parts[0]
    else parts[0] + sep + Join(parts[1..], sep)
  }

  /** `b''.join(parts)`: the parts in order, with nothing between them. */
  function Concat<T>(parts: seq<seq<T>>): seq<T> {
    if parts == [] then [] else parts[0] + Concat(parts[1..])
  }

  /** Python's `s.split(sep)` for a non-empty separator. */
  function Split<T(==)>(s: seq<T>, sep: seq<T>): (r: seq<seq<T>>)
    requires |sep| > 0
    ensures |r| >= 1
    ensures Join(r, sep) == s
    ensures forall i :: 0 <= i < |r| ==> !Contains(r[i], sep)
    ensures |r| >= 2 <==> Contains(s, sep)
    decreases |s|
  {
    match Find(s, sep)
    case None => [s]
    case Some(i) =>
      NoneBefore(s, sep, i);
      var rest := Split(s[i + |sep|..], sep);
      assert s == s[..i] + sep + s[i + |sep|..];
      assert ([s[..i]] + rest)[1..] == rest;
      [s[..i]] + rest
  }

  /**
   * `Split` cuts at the leftmost occurrence every time: no piece but the
   * last, followed by all of the separator but its final element, contains
   * the separator. Of the many ways to cut `s` into pieces that `Join` back
   * to it, this picks Python's.
   */
  lemma {:induction false} SplitCutsLeftmost<T>(s: seq<T>, sep: seq<T>)
    requires |sep| > 0
    ensures forall k :: 0 <= k < |Split(s, sep)| - 1 ==> !Contains(Split(s, sep)[k] + sep[..|sep| - 1], sep)
    decreases |s|
  {
    match Find(s, sep)
    case None =>
    case Some(i) =>
      CutIsLeftmost(s, sep, i);
      var rest := Split(s[i + |sep|..], sep);
      SplitCutsLeftmost(s[i + |sep|..], sep);
      var r := Split(s, sep);
      assert r == [s[..i]] + rest;
      forall k | 0 <= k < |r| - 1
        ensures !Contains(r[k] + sep[..|sep| - 1], sep)
      {
        if k > 0 {
          assert r[k] == rest[k - 1];
        } else {
          assert r[k] == s[..i];
        }
      }
  }

  /**
   * Cutting at the first occurrence leaves no occurrence that starts inside
   * the piece and runs into the separator: the cut is the leftmost one.
   */
  lemma CutIsLeftmost<T>(s: seq<T>, sep: seq<T>, i: nat)
    requires |sep| > 0 && Find(s, sep) == Some(i)
    ensures !Contains(s[..i] + sep[..|sep| - 1], sep)
  {
    var n := i + |sep| - 1;
    assert s[..i] + sep[..|sep| - 1] == s[..n];
    forall j ensures !OccursAt(s[..n], sep, j) {
      OccursInPrefix(s, sep, n, j);
    }
  }

  /** Python's `s.split(sep, 1)`: at most two pieces, cut at the first `sep`. */
  function SplitOnce<T(==)>(s: seq<T>, sep: seq<T>): (r: seq<seq<T>>)
    requires |sep| > 0
    ensures 1 <= |r| <= 2 && Join(r, sep) == s
    ensures |r| == 2 <==> Contains(s, sep)
    ensures |r| == 2 ==> forall j :: 0 <= j < |r[0]| ==> !OccursAt(s, sep, j)
  {
    match Find(s, sep)
    case None => [s]
    case Some(i) =>
      assert s == s[..i] + sep + s[i + |sep|..];
      [s[..i], s[i + |sep|..]]
  }

  // ---------------------------------------------------------------------
  // Occurrences in slices and concatenations

  lemma OccursInPrefix<T>(s: seq<T>, sep: seq<T>, n: nat, j: int)
    requires n <= |s|
    ensures OccursAt(s[..n], sep, j) <==> OccursAt(s, sep, j) && j + |sep| <= n
  {
    if 0 <= j && j + |sep| <= n {
      assert s[..n][j..j + |sep|] == s[j..j + |sep|];
    }
  }

  lemma OccursShift<T>(a: seq<T>, b: seq<T>, sep: seq<T>, j: int)
    requires 0 <= j
    ensures OccursAt(a + b, sep, |a| + j) <==> OccursAt(b, sep, j)
  {
    if 0 <= j && j + |sep| <= |b| {
      assert (a + b)[|a| + j..|a| + j + |sep|] == b[j..j + |sep|];
    }
  }

  lemma OccursInLeft<T>(a: seq<T>, b: seq<T>, sep: seq<T>, j: int)
    requires j + |sep| <= |a|
    ensures OccursAt(a + b, sep, j) <==> OccursAt(a, sep, j)
  {
    if 0 <= j {
      assert (a + b)[j..j + |sep|] == a[j..j + |sep|];
    }
  }

  /** A prefix that ends before the first occurrence does not contain `sep`. */
  lemma NoneBefore<T>(s: seq<T>, sep: seq<T>, i: nat)
    requires |sep| > 0 && i <= |s|
    requires forall j :: 0 <= j < i ==> !OccursAt(s, sep, j)
    ensures !Contains(s[..i], sep)
  {
    forall j ensures !OccursAt(s[..i], sep, j) {
      OccursInPrefix(s, sep, i, j);
    }
  }

  /** When the first element of `sep` is nowhere in `a`, the first `sep` of `a + sep + b` is the one right after `a`. */
  lemma {:induction false} FindAfterClean<T>(a: seq<T>, sep: seq<T>, b: seq<T>)
    requires |sep| > 0 && sep[0] !in a
    ensures Find(a + sep + b, sep) == Some(|a|)
  {
    var s := a + sep + b;
    assert s[|a|..|a| + |sep|] == sep;
    assert OccursAt(s, sep, |a|);
    forall j | 0 <= j < |a| ensures !OccursAt(s, sep, j) {
      if j + |sep| <= |s| {
        assert s[j..j + |sep|][0] == s[j] == a[j];
      }
    }
  }

  /** When `a + sep` has its first `sep` at the end, it stays first whatever follows. */
  lemma FirstStaysFirst<T>(a: seq<T>, sep: seq<T>, b: seq<T>)
    requires Find(a + sep, sep) == Some(|a|)
    ensures Find(a + sep + b, sep) == Some(|a|)
  {
    var s := a + sep + b;
    assert s == (a + sep) + b;
    OccursInLeft(a + sep, b, sep, |a|);
    forall j | 0 <= j < |a| ensures !OccursAt(s, sep, j) {
      OccursInLeft(a + sep, b, sep, j);
    }
  }

  /** A sequence that avoids the first element of `sep` does not contain `sep`. */
  lemma {:induction false} CleanHasNone<T>(a: seq<T>, sep: seq<T>)
    requires |sep| > 0 && sep[0] !in a
    ensures Find(a, sep) == None
  {
    forall j ensures !OccursAt(a, sep, j) {
      if 0 <= j && j + |sep| <= |a| {
        assert a[j..j + |sep|][0] == a[j];
      }
    }
  }

  /**
   * Splitting what `Join` built, followed by a further separator and a tail,
   * gives back the parts and then the split of the tail, provided no part
   * holds the first element of the separator.
   */
  lemma {:induction false} SplitAppend<T>(parts: seq<seq<T>>, sep: seq<T>, rest: seq<T>)
    requires |sep| > 0 && |parts| >= 1
    requires forall i :: 0 <= i < |parts| ==> sep[0] !in parts[i]
    ensures Split(Join(parts, sep) + sep + rest, sep) == parts + Split(rest, sep)
    decreases |parts|
  {
    var p := parts[0];
    if |parts| == 1 {
      SplitFirst(p, sep, rest);
    } else {
      var more := parts[1..];
      var tail := Join(more, sep) + sep + rest;
      JoinHead(parts, sep, rest);
      SplitFirst(p, sep, tail);
      forall i | 0 <= i < |more| ensures sep[0] !in more[i] {
        assert more[i] == parts[i + 1];
      }
      SplitAppend(more, sep, rest);
      ConsAppend(parts, Split(Join(parts, sep) + sep + rest, sep), Split(tail, sep), Split(rest, sep));
    }
  }

  lemma ConsAppend<T>(parts: seq<T>, a: seq<T>, b: seq<T>, r: seq<T>)
    requires |parts| >= 1 && a == [parts[0]] + b && b == parts[1..] + r
    ensures a == parts + r
  {
    assert parts == [parts[0]] + parts[1..];
  }

  lemma JoinHead<T>(parts: seq<seq<T>>, sep: seq<T>, rest: seq<T>)
    requires |parts| >= 2
    ensures Join(parts, sep) + sep + rest == parts[0] + sep + (Join(parts[1..], sep) + sep + rest)
  {
    assert Join(parts, sep) == parts[0] + sep + Join(parts[1..], sep);
  }

  /** One step of `Split` past a piece that avoids the first element of `sep`. */
  lemma SplitFirst<T>(p: seq<T>, sep: seq<T>, tail: seq<T>)
    requires |sep| > 0 && sep[0] !in p
    ensures Split(p + sep + tail, sep) == [p] + Split(tail, sep)
  {
    var s := p + sep + tail;
    FindAfterClean(p, sep, tail);
    assert s[..|p|] == p;
    assert s[|p| + |sep|..] == tail;
  }

  /** `Split` inverts `Join` when no part holds the first element of the separator. */
  lemma {:induction false} SplitJoin<T>(parts: seq<seq<T>>, sep: seq<T>)
    requires |sep| > 0 && |parts| >= 1
    requires forall i :: 0 <= i < |parts| ==> sep[0] !in parts[i]
    ensures Split(Join(parts, sep), sep) == parts
  {
    var n := |parts|;
    if n == 1 {
      CleanHasNone(parts[0], sep);
    } else {
      var init := parts[..n - 1];
      JoinSnoc(init, parts[n - 1], sep);
      SplitAppend(init, sep, parts[n - 1]);
      CleanHasNone(parts[n - 1], sep);
      assert init + [parts[n - 1]] == parts;
    }
  }

  lemma {:induction false} JoinSnoc<T>(parts: seq<seq<T>>, last: seq<T>, sep: seq<T>)
    requires |parts| >= 1
    ensures Join(parts + [last], sep) == Join(parts, sep) + sep + last
    decreases |parts|
  {
    if |parts| == 1 {
      assert (parts + [last])[1..] == [last];
    } else {
      assert (parts + [last])[1..] == parts[1..] + [last];
      JoinSnoc(parts[1..], last, sep);
    }
  }

  lemma {:induction false} ConcatAppend<T>(a: seq<seq<T>>, b: seq<seq<T>>)
    ensures Concat(a + b) == Concat(a) + Concat(b)
    decreases |a|
  {
    if a == [] {
      assert a + b == b;
    } else {
      assert (a + b)[1..] == a[1..] + b;
      ConcatAppend(a[1..], b);
    }
  }
}
