/** Python's `collections.Counter` as used for `most_common(1)`. */
module Tally {

  /** How often `x` occurs in `s`. */
  function Count<T(==)>(s: seq<T>, x: T): (n: nat)
    ensures n <= |s|
    ensures n > 0 <==> x in s
  {
    if s == [] then 0 else (if s[0] == x then 1 else 0) + Count(s[1..], x)
  }

  /** The position of the first occurrence of `x`. */
  function FirstIndex<T(==)>(s: seq<T>, x: T): (i: nat)
    requires x in s
    ensures i < |s| && s[i] == x && x !in s[..i]
  {
    if s[0] == x then 0
    else
      var i := FirstIndex(s[1..], x);
      assert s[..i + 1] == [s[0]] + s[1..][..i];
      i + 1
  }

  function FirstMaxFrom<T(==)>(s: seq<T>, i: nat, best: nat): (k: nat)
    requires best < i <= |s|
    requires forall j :: 0 <= j < i ==> Count(s, s[j]) <= Count(s, s[best])
    requires forall j :: 0 <= j < best ==> Count(s, s[j]) < Count(s, s[best])
    ensures k < |s|
    ensures forall j :: 0 <= j < |s| ==> Count(s, s[j]) <= Count(s, s[k])
    ensures forall j :: 0 <= j < k ==> Count(s, s[j]) < Count(s, s[k])
    decreases |s| - i
  {
    if i == |s| then best
    else if Count(s, s[i]) > Count(s, s[best]) then FirstMaxFrom(s, i + 1, i)
    else FirstMaxFrom(s, i + 1, best)
  }

  /**
   * `Counter(s).most_common(1)[0][0]`: an element of greatest count, and among
   * those the one met first (a Counter lists its keys in first-seen order and
   * `max` keeps the first maximum).
   */
  function MostCommon<T(==)>(s: seq<T>): (r: T)
    requires |s| > 0
    ensures r in s
    ensures forall y :: y in s ==> Count(s, y) <= Count(s, r)
    ensures forall y :: y in s[..FirstIndex(s, r)] ==> Count(s, y) < Count(s, r)
  {
    var k := FirstMaxFrom(s, 1, 0);
    var r := s[k];
    var f := FirstIndex(s, r);
    assert f <= k;
    r
  }

  /**
   * The three properties of `MostCommon` single out its result: no other
   * element has greatest count and is met before every other of that count.
   */
  lemma MostCommonUnique<T>(s: seq<T>, r: T)
    requires r in s
    requires forall y :: y in s ==> Count(s, y) <= Count(s, r)
    requires forall y :: y in s[..FirstIndex(s, r)] ==> Count(s, y) < Count(s, r)
    ensures r == MostCommon(s)
  {
  }
}
