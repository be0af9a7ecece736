/**
 * The key order of Python's `OrderedDict`, as the proxy's cache index uses
 * it: keys are unique, the front is the least recently used one and the back
 * the most recently used one. `move_to_end`, `popitem(last=False)` and key
 * assignment are the three operations on it.
 */
module Recency {

  /** The cache index keys request paths. */
  type Key = string

  /** No key occurs twice. */
  predicate Distinct(s: seq<Key>) {
    forall i, j :: 0 <= i < j < |s| ==> s[i] != s[j]
  }

  /** The sequence without `x`, the other keys in their order. */
  function Remove(s: seq<Key>, x: Key): (r: seq<Key>)
    ensures forall y :: y in r <==> y in s && y != x
    ensures Distinct(s) ==> Distinct(r)
    ensures x !in s ==> r == s
    ensures Distinct(s) && x in s ==> |r| == |s| - 1
  {
    if s == [] then []
    else if s[0] == x then
      assert Distinct(s) ==> x !in s[1..];
      Remove(s[1..], x)
    else
      var rest := Remove(s[1..], x);
      assert Distinct(s) ==> s[0] !in rest;
      assert s[0] != x;
      assert Distinct(s) ==> Distinct([s[0]] + rest) by {
        if Distinct(s) {
          forall i, j | 0 <= i < j < |[s[0]] + rest| ensures ([s[0]] + rest)[i] != ([s[0]] + rest)[j] {
            if i == 0 {
              assert ([s[0]] + rest)[j] in rest;
            }
          }
        }
      }
      [s[0]] + rest
  }

  /** In a sequence of distinct keys, removing the key at index `i` cuts out that one position. */
  lemma {:induction false} RemoveAt(s: seq<Key>, i: nat)
    requires Distinct(s) && i < |s|
    ensures Remove(s, s[i]) == s[..i] + s[i + 1..]
    decreases i
  {
    if i > 0 {
      assert s[0] != s[i];
      assert Distinct(s[1..]) by {
        forall a, b | 0 <= a < b < |s[1..]| ensures s[1..][a] != s[1..][b] {
          assert s[1..][a] == s[a + 1] && s[1..][b] == s[b + 1];
        }
      }
      RemoveAt(s[1..], i - 1);
      assert s[1..][i - 1] == s[i];
      assert s[..i] == [s[0]] + s[1..][..i - 1];
      assert s[i + 1..] == s[1..][i..];
    } else {
      assert s[0] !in s[1..] by {
        forall j | 0 <= j < |s[1..]| ensures s[1..][j] != s[0] {
          assert s[1..][j] == s[j + 1];
        }
      }
    }
  }

  /**
   * `move_to_end(x)`: the same keys, `x` now last, and every other key in
   * the order it had.
   */
  function MoveToEnd(s: seq<Key>, x: Key): (r: seq<Key>)
    requires x in s
    ensures r != [] && r[|r| - 1] == x
    ensures forall y :: y in r <==> y in s
    ensures Remove(r, x) == Remove(s, x)
    ensures Distinct(s) ==> Distinct(r) && |r| == |s|
  {
    var rest := Remove(s, x);
    RemoveSnoc(rest, x);
    assert Distinct(s) ==> Distinct(rest + [x]) by {
      if Distinct(s) {
        forall i, j | 0 <= i < j < |rest + [x]| ensures (rest + [x])[i] != (rest + [x])[j] {
          if j == |rest| {
            assert (rest + [x])[i] == rest[i] && rest[i] in rest;
          } else {
            assert (rest + [x])[i] == rest[i] && (rest + [x])[j] == rest[j];
          }
        }
      }
    }
    rest + [x]
  }

  /** Removing the key that was just appended (and occurs nowhere else) gives back what was there. */
  lemma {:induction false} RemoveSnoc(s: seq<Key>, x: Key)
    requires x !in s
    ensures Remove(s + [x], x) == s
    decreases |s|
  {
    if s == [] {
      assert [] + [x] == [x];
      assert [x][1..] == [];
    } else {
      assert (s + [x])[0] == s[0] != x;
      assert (s + [x])[1..] == s[1..] + [x];
      RemoveSnoc(s[1..], x);
      assert s == [s[0]] + s[1..];
    }
  }

  /**
   * `d[x] = v` on an `OrderedDict`: a key already present keeps its place,
   * a new key is added last.
   */
  function Assign(s: seq<Key>, x: Key): (r: seq<Key>)
    ensures forall y :: y in r <==> y in s || y == x
    ensures x in s ==> r == s
    ensures x !in s ==> r == s + [x]
    ensures Distinct(s) ==> Distinct(r)
  {
    if x in s then s
    else
      assert Distinct(s) ==> Distinct(s + [x]) by {
        if Distinct(s) {
          forall i, j | 0 <= i < j < |s + [x]| ensures (s + [x])[i] != (s + [x])[j] {
            if j == |s| {
              assert (s + [x])[i] == s[i] && s[i] in s;
            } else {
              assert (s + [x])[i] == s[i] && (s + [x])[j] == s[j];
            }
          }
        }
      }
      s + [x]
  }

  /** The tail of a sequence of distinct keys is distinct and no longer holds its head. */
  lemma DistinctTail(s: seq<Key>)
    requires Distinct(s) && s != []
    ensures Distinct(s[1..]) && s[0] !in s[1..]
  {
    forall a, b | 0 <= a < b < |s[1..]| ensures s[1..][a] != s[1..][b] {
      assert s[1..][a] == s[a + 1] && s[1..][b] == s[b + 1];
    }
    forall j | 0 <= j < |s[1..]| ensures s[1..][j] != s[0] {
      assert s[1..][j] == s[j + 1];
    }
  }

  /** A sequence of distinct keys has as many elements as the set of its keys. */
  lemma {:induction false} DistinctCard(s: seq<Key>)
    requires Distinct(s)
    ensures |set x | x in s| == |s|
    decreases |s|
  {
    if s != [] {
      DistinctTail(s);
      DistinctCard(s[1..]);
      assert (set x | x in s) == {s[0]} + (set x | x in s[1..]);
    } else {
      assert (set x | x in s) == {};
    }
  }
}
