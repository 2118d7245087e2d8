/**
 * The "new particle" enumerations: every triple of a box of Python ranges that
 * passes a filter, appended in loop order with its q = 8a + 15b + 24c, then
 * sorted by q (a stable sort) and cut to the first few.
 */
module Enumeration {
  import opened Basis
  import opened Sorting

  /** One appended `(a, b, c, q, ...)` tuple; n = q/4 and the mass are derived from q. */
  datatype Prediction = Prediction(t: Triple, q: int)

  predicate Kept(box: Box, keep: Triple -> bool, t: Triple)
  {
    InBox(t, box) && keep(t)
  }

  predicate StrictlyLexOrdered(ps: seq<Prediction>)
  {
    forall i, j :: 0 <= i < j < |ps| ==> LexLess(ps[i].t, ps[j].t)
  }

  /**
   * `ps` is the loop's list: exactly the kept triples of the box with their q,
   * each once, in lexicographic (loop) order.
   */
  ghost predicate IsEnumeration(box: Box, keep: Triple -> bool, ps: seq<Prediction>)
  {
    (forall p :: p in ps ==> Kept(box, keep, p.t) && p.q == Eval(p.t))
    && (forall t :: Kept(box, keep, t) ==> Prediction(t, Eval(t)) in ps)
    && StrictlyLexOrdered(ps)
  }

  /** The list after visiting every triple lexicographically before `cur`. */
  ghost predicate EnumInv(box: Box, keep: Triple -> bool, cur: Triple, ps: seq<Prediction>)
  {
    (forall p :: p in ps ==> Kept(box, keep, p.t) && p.q == Eval(p.t) && LexLess(p.t, cur))
    && (forall t :: Kept(box, keep, t) && LexLess(t, cur) ==> Prediction(t, Eval(t)) in ps)
    && StrictlyLexOrdered(ps)
  }

  /** Moving from the end of one row of the box to the start of the next skips no box triple. */
  lemma EnumInvNextB(box: Box, keep: Triple -> bool, a: int, b: int, c: int, ps: seq<Prediction>)
    requires box.cHi <= c
    requires EnumInv(box, keep, Triple(a, b, c), ps)
    ensures EnumInv(box, keep, Triple(a, b + 1, box.cLo), ps)
  {
    forall t | Kept(box, keep, t) && LexLess(t, Triple(a, b + 1, box.cLo))
      ensures LexLess(t, Triple(a, b, c))
    {
    }
  }

  lemma EnumInvNextA(box: Box, keep: Triple -> bool, a: int, b: int, ps: seq<Prediction>)
    requires box.bHi <= b
    requires EnumInv(box, keep, Triple(a, b, box.cLo), ps)
    ensures EnumInv(box, keep, Triple(a + 1, box.bLo, box.cLo), ps)
  {
    forall t | Kept(box, keep, t) && LexLess(t, Triple(a + 1, box.bLo, box.cLo))
      ensures LexLess(t, Triple(a, b, box.cLo))
    {
    }
  }

  /** The innermost loop, over c, for one (a, b). */
  method EnumerateLine(box: Box, keep: Triple -> bool, a: int, b: int, ps: seq<Prediction>) returns (ps': seq<Prediction>)
    requires box.aLo <= a < box.aHi && box.bLo <= b < box.bHi
    requires EnumInv(box, keep, Triple(a, b, box.cLo), ps)
    ensures EnumInv(box, keep, Triple(a, b + 1, box.cLo), ps')
  {
    ps' := ps;
    var c := box.cLo;
    while c < box.cHi
      invariant box.cLo <= c
      invariant EnumInv(box, keep, Triple(a, b, c), ps')
      decreases box.cHi - c
    {
      if keep(Triple(a, b, c)) {
        ps' := ps' + [Prediction(Triple(a, b, c), 8 * a + 15 * b + 24 * c)];
      }
      c := c + 1;
    }
    EnumInvNextB(box, keep, a, b, c, ps');
  }

  /** The middle loop, over b, for one a. */
  method EnumeratePlane(box: Box, keep: Triple -> bool, a: int, ps: seq<Prediction>) returns (ps': seq<Prediction>)
    requires box.aLo <= a < box.aHi
    requires EnumInv(box, keep, Triple(a, box.bLo, box.cLo), ps)
    ensures EnumInv(box, keep, Triple(a + 1, box.bLo, box.cLo), ps')
  {
    ps' := ps;
    var b := box.bLo;
    while b < box.bHi
      invariant box.bLo <= b
      invariant EnumInv(box, keep, Triple(a, b, box.cLo), ps')
      decreases box.bHi - b
    {
      ps' := EnumerateLine(box, keep, a, b, ps');
      b := b + 1;
    }
    EnumInvNextA(box, keep, a, b, ps');
  }

  /** The three nested `for` loops with the filter, appending to an empty list. */
  method Enumerate(box: Box, keep: Triple -> bool) returns (ps: seq<Prediction>)
    ensures IsEnumeration(box, keep, ps)
  {
    ps := [];
    var a := box.aLo;
    while a < box.aHi
      invariant box.aLo <= a
      invariant EnumInv(box, keep, Triple(a, box.bLo, box.cLo), ps)
      decreases box.aHi - a
    {
      ps := EnumeratePlane(box, keep, a, ps);
      a := a + 1;
    }
    forall t | Kept(box, keep, t) ensures Prediction(t, Eval(t)) in ps {
      assert LexLess(t, Triple(a, box.bLo, box.cLo));
    }
  }

  /** The sort key `lambda x: x[3]`. */
  function ByQ(p: Prediction): int
  {
    p.q
  }

  /** Loop order of two predictions. */
  predicate LexBefore(x: Prediction, y: Prediction)
  {
    LexLess(x.t, y.t)
  }

  /** Sorting by q keeps exactly the members of the list. */
  lemma SortedMembers(ps: seq<Prediction>)
    ensures forall p :: p in SortBy(ps, ByQ) <==> p in ps
  {
    var r := SortBy(ps, ByQ);
    forall p ensures p in r <==> p in ps {
      assert p in r <==> p in multiset(r);
      assert p in ps <==> p in multiset(ps);
    }
  }

  /**
   * Sorting the loop's list by q orders it by q, keeps loop order among equal
   * q, and so lists every triple once.
   */
  lemma SortedEnumeration(box: Box, keep: Triple -> bool, ps: seq<Prediction>)
    requires IsEnumeration(box, keep, ps)
    ensures OrderedWithTies(SortBy(ps, ByQ), ByQ, LexBefore)
    ensures forall i, j :: 0 <= i < j < |SortBy(ps, ByQ)| ==> SortBy(ps, ByQ)[i].t != SortBy(ps, ByQ)[j].t
  {
    var r := SortBy(ps, ByQ);
    SortByTies(ps, ByQ, LexBefore);
    SortedMembers(ps);
    SortedDistinct(r);
  }

  /** Ordered by q with strict loop order among ties: no triple twice. */
  lemma SortedDistinct(r: seq<Prediction>)
    requires forall p :: p in r ==> p.q == Eval(p.t)
    requires OrderedWithTies(r, ByQ, LexBefore)
    ensures forall i, j :: 0 <= i < j < |r| ==> r[i].t != r[j].t
  {
    forall i, j | 0 <= i < j < |r| ensures r[i].t != r[j].t {
      assert r[i] in r && r[j] in r;
      assert ByQ(r[i]) < ByQ(r[j]) || LexLess(r[i].t, r[j].t);
    }
  }

  /**
   * A sorted prediction list: exactly the kept triples of the box with their q,
   * ordered by q, in loop order among equal q, no triple twice.
   */
  ghost predicate IsSortedPredictionList(box: Box, keep: Triple -> bool, r: seq<Prediction>)
  {
    (forall p :: p in r ==> Kept(box, keep, p.t) && p.q == Eval(p.t))
    && (forall t :: Kept(box, keep, t) ==> Prediction(t, Eval(t)) in r)
    && SortedBy(r, ByQ)
    && OrderedWithTies(r, ByQ, LexBefore)
    && (forall i, j :: 0 <= i < j < |r| ==> r[i].t != r[j].t)
  }

  /** `predictions.sort(key=lambda x: x[3])` applied to the loop's list. */
  lemma SortEnumeration(box: Box, keep: Triple -> bool, ps: seq<Prediction>)
    requires IsEnumeration(box, keep, ps)
    ensures IsSortedPredictionList(box, keep, SortBy(ps, ByQ))
  {
    SortedMembers(ps);
    SortedEnumeration(box, keep, ps);
  }

  /** `predictions[:n]`. */
  function Head(r: seq<Prediction>, n: nat): (shown: seq<Prediction>)
    ensures |shown| <= n && |shown| <= |r| && shown == r[..|shown|]
    ensures |shown| == |r| || |shown| == n
  {
    if |r| <= n then r else r[..n]
  }

  /** The first `n` of a list sorted by q are the ones of smallest q. */
  lemma HeadSmallest(r: seq<Prediction>, n: nat)
    requires SortedBy(r, ByQ)
    ensures forall p, p' :: p in Head(r, n) && p' in r[|Head(r, n)|..] ==> p.q <= p'.q
  {
    var h := Head(r, n);
    forall p, p' | p in h && p' in r[|h|..] ensures p.q <= p'.q {
      var i :| 0 <= i < |h| && h[i] == p;
      var j :| 0 <= j < |r[|h|..]| && r[|h|..][j] == p';
      assert r[i] == p && r[|h| + j] == p';
      assert ByQ(r[i]) <= ByQ(r[|h| + j]);
    }
  }
}
