/**
 * Python's `list.sort(key=...)` and `sorted(..., key=...)`: a stable sort on an
 * integer key. Modelled as insertion sort, which produces the same list as any
 * stable sort.
 */
module Sorting {

  predicate SortedBy<T>(s: seq<T>, key: T -> int)
  {
    forall i, j :: 0 <= i < j < |s| ==> key(s[i]) <= key(s[j])
  }

  /** `s` is ordered by `key`, and elements with equal keys are ordered by `before`. */
  predicate OrderedWithTies<T>(s: seq<T>, key: T -> int, before: (T, T) -> bool)
  {
    forall i, j :: 0 <= i < j < |s| ==>
      key(s[i]) < key(s[j]) || (key(s[i]) == key(s[j]) && before(s[i], s[j]))
  }

  /** Puts `x` after every element whose key is at most `key(x)`. */
  function Insert<T>(x: T, s: seq<T>, key: T -> int): (r: seq<T>)
    ensures |r| == |s| + 1
    ensures multiset(r) == multiset(s) + multiset{x}
  {
    if s == [] || key(x) < key(s[0]) then [x] + s
    else
      assert s == [s[0]] + s[1..];
      [s[0]] + Insert(x, s[1..], key)
  }

  /** Every element of `Insert(x, s, key)` is `x` or an element of `s`. */
  lemma InsertMembers<T>(x: T, s: seq<T>, key: T -> int, y: T)
    requires y in Insert(x, s, key)
    ensures y == x || y in s
  {
    assert y in multiset(Insert(x, s, key));
  }

  /** Insertion keeps a list sorted. */
  lemma {:induction false} InsertSorted<T>(x: T, s: seq<T>, key: T -> int)
    requires SortedBy(s, key)
    ensures SortedBy(Insert(x, s, key), key)
  {
    if s == [] || key(x) < key(s[0]) {
      assert forall j :: 0 <= j < |s| ==> key(s[0]) <= key(s[j]);
    } else {
      var rest := Insert(x, s[1..], key);
      InsertSorted(x, s[1..], key);
      forall y | y in rest ensures key(s[0]) <= key(y) {
        InsertMembers(x, s[1..], key, y);
      }
      var r := [s[0]] + rest;
      forall i, j | 0 <= i < j < |r| ensures key(r[i]) <= key(r[j]) {
        if i > 0 {
          assert r[i] == rest[i - 1] && r[j] == rest[j - 1];
        } else {
          assert r[j] in rest;
        }
      }
    }
  }

  /** The stable sort of `s` by `key`. */
  function SortBy<T>(s: seq<T>, key: T -> int): (r: seq<T>)
    ensures |r| == |s|
    ensures multiset(r) == multiset(s)
    ensures SortedBy(r, key)
  {
    if s == [] then []
    else
      assert s == s[..|s| - 1] + [s[|s| - 1]];
      InsertSorted(s[|s| - 1], SortBy(s[..|s| - 1], key), key);
      Insert(s[|s| - 1], SortBy(s[..|s| - 1], key), key)
  }

  /** Putting `h` in front of an ordered list keeps it ordered when `h` precedes every element. */
  lemma ConsOrdered<T>(h: T, rest: seq<T>, key: T -> int, before: (T, T) -> bool)
    requires OrderedWithTies(rest, key, before)
    requires forall y :: y in rest ==> key(h) < key(y) || (key(h) == key(y) && before(h, y))
    ensures OrderedWithTies([h] + rest, key, before)
  {
    var r := [h] + rest;
    forall i, j | 0 <= i < j < |r|
      ensures key(r[i]) < key(r[j]) || (key(r[i]) == key(r[j]) && before(r[i], r[j]))
    {
      if i > 0 {
        assert r[i] == rest[i - 1] && r[j] == rest[j - 1];
      } else {
        assert r[j] in rest;
      }
    }
  }

  lemma {:induction false} InsertTies<T>(x: T, s: seq<T>, key: T -> int, before: (T, T) -> bool)
    requires OrderedWithTies(s, key, before)
    requires forall y :: y in s ==> before(y, x)
    ensures OrderedWithTies(Insert(x, s, key), key, before)
  {
    if s == [] || key(x) < key(s[0]) {
      assert forall j :: 0 <= j < |s| ==> key(s[0]) <= key(s[j]);
      ConsOrdered(x, s, key, before);
    } else {
      var rest := Insert(x, s[1..], key);
      InsertTies(x, s[1..], key, before);
      forall y | y in rest
        ensures key(s[0]) < key(y) || (key(s[0]) == key(y) && before(s[0], y))
      {
        InsertMembers(x, s[1..], key, y);
        if y != x {
          var j :| 0 <= j < |s[1..]| && s[1..][j] == y;
          assert s[j + 1] == y;
        }
      }
      ConsOrdered(s[0], rest, key, before);
    }
  }

  /**
   * Stability, stated for an input already ordered by `before`: the output is
   * ordered by `key`, and by `before` among equal keys.
   */
  lemma {:induction false} SortByTies<T>(s: seq<T>, key: T -> int, before: (T, T) -> bool)
    requires forall i, j :: 0 <= i < j < |s| ==> before(s[i], s[j])
    ensures OrderedWithTies(SortBy(s, key), key, before)
  {
    if s != [] {
      var init, last := s[..|s| - 1], s[|s| - 1];
      SortByTies(init, key, before);
      var sorted := SortBy(init, key);
      forall y | y in sorted ensures before(y, last) {
        assert y in multiset(sorted);
        var i :| 0 <= i < |init| && init[i] == y;
        assert s[i] == y;
      }
      InsertTies(last, sorted, key, before);
    }
  }
}
