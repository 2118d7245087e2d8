/** Integer coefficients on the Casimir basis 8, 15, 24 and helpers on integer lists. */
module Basis {

  /** Coefficients (a, b, c) of q = 8a + 15b + 24c. */
  datatype Triple = Triple(a: int, b: int, c: int)

  /** The q value a triple stands for. */
  function Eval(t: Triple): int
  {
    8 * t.a + 15 * t.b + 24 * t.c
  }

  /** The order in which nested loops over a, then b, then c visit triples. */
  predicate LexLess(s: Triple, t: Triple)
  {
    s.a < t.a || (s.a == t.a && (s.b < t.b || (s.b == t.b && s.c < t.c)))
  }

  /** Three Python ranges `range(aLo, aHi)`, `range(bLo, bHi)`, `range(cLo, cHi)`. */
  datatype Box = Box(aLo: int, aHi: int, bLo: int, bHi: int, cLo: int, cHi: int)

  predicate InBox(t: Triple, box: Box)
  {
    box.aLo <= t.a < box.aHi && box.bLo <= t.b < box.bHi && box.cLo <= t.c < box.cHi
  }

  function Abs(x: int): nat
  {
    if x < 0 then -x else x
  }

  /** Python's `min` of a non-empty list. */
  function MinOf(s: seq<int>): (m: int)
    requires |s| > 0
    ensures m in s && forall x :: x in s ==> m <= x
  {
    if |s| == 1 then s[0]
    else
      var m := MinOf(s[1..]);
      assert forall x :: x in s ==> x == s[0] || x in s[1..];
      if s[0] <= m then s[0] else m
  }

  /** Python's `max` of a non-empty list. */
  function MaxOf(s: seq<int>): (m: int)
    requires |s| > 0
    ensures m in s && forall x :: x in s ==> x <= m
  {
    if |s| == 1 then s[0]
    else
      var m := MaxOf(s[1..]);
      assert forall x :: x in s ==> x == s[0] || x in s[1..];
      if s[0] >= m then s[0] else m
  }

  /** Python's `sum` of a list. */
  function Sum(s: seq<int>): int
  {
    if s == [] then 0 else s[0] + Sum(s[1..])
  }

  /** `[f(x) for x in s]` as the loop that appends one result per entry. */
  method MapEach<A, B>(s: seq<A>, f: A -> B) returns (r: seq<B>)
    ensures |r| == |s| && forall i :: 0 <= i < |s| ==> r[i] == f(s[i])
  {
    r := [];
    for i := 0 to |s|
      invariant |r| == i
      invariant forall j :: 0 <= j < i ==> r[j] == f(s[j])
    {
      r := r + [f(s[i])];
    }
  }
}
